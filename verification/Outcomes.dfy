/** What the steps of a workflow add up to: a build from its creation to its completion, a commit
    that changes nothing, a session and what is made of its exit, and a cleanup to its end. */
module Outcomes {
  import opened Paths
  import opened Workflow

  /** A project at rest, with a settled tree under a clean marker, on stable storage too. */
  predicate Trusted(p: Project) {
    p == Project(Clean, Clean, true, true, false, false)
  }

  /** The records and projects there were, and the record and the project of one workflow now. */
  datatype Place = Place(fs: map<nat, Flow>, ps: map<nat, Project>, f: Flow, p: Project)

  /** The workflow is the active one, and nothing differs but its record and its project. */
  ghost predicate At(m: WorkflowManager, id: nat, s: Place) reads m {
    m.Valid() && m.active == Some(id) && m.flows == s.fs[id := s.f] && m.projects == s.ps[s.f.project := s.p]
  }

  lemma Noted(m: WorkflowManager, id: nat, flows: map<nat, Flow>, projects: map<nat, Project>, s: Place, t: Place)
    requires flows == s.fs[id := s.f] && projects == s.ps[s.f.project := s.p] && t == s.(f := t.f, p := t.p) && t.f.project == s.f.project
    requires m.Valid() && m.active == Some(id) && m.flows == flows[id := t.f] && m.projects == projects[t.f.project := t.p]
    ensures At(m, id, t)
  {
    hide Sound;
  }

  lemma Here(m: WorkflowManager, id: nat, s: Place)
    requires At(m, id, s)
    ensures m.Valid() && m.On(id) && m.active == Some(id) && id in m.flows && m.flows[id] == s.f
    ensures s.f.project in m.projects && m.projects[s.f.project] == s.p && m.Of(id) == s.p && InStep(s.f, s.p) && !Terminal(s.f.status)
    ensures s.f.op == Idle && s.f.transfers == 0 ==> m.Exclusive(id, s.f.status)
    ensures m.Exclusive(id, s.f.status) ==> s.f.op == Idle && s.f.transfers == 0
  {
    hide InStep;
    m.ActiveInStep(id);
  }

  lemma There(m: WorkflowManager, id: nat, s: Place)
    requires At(m, id, s)
    ensures m.Valid() && m.On(id) && m.active == Some(id) && m.flows == s.fs[id := s.f] && m.projects == s.ps[s.f.project := s.p]
    ensures m.flows[id] == s.f && m.Of(id) == s.p
  {
    hide Sound, InStep;
    Here(m, id, s);
  }

  lemma Now(m: WorkflowManager, id: nat) returns (s: Place)
    requires m.Valid() && m.On(id)
    ensures At(m, id, s) && s == Place(m.flows, m.projects, m.flows[id], m.Of(id))
  {
    hide Sound;
    s := Place(m.flows, m.projects, m.flows[id], m.Of(id));
  }

  // ---------------------------------------------------------------- single steps

  /** The record after it was asked to stop. */
  function Stopped(f: Flow, failed: bool, invalidate: bool): Flow {
    f.(status := Stopping, target := if failed then Failed else f.target, invalidate := f.invalidate || invalidate,
       requiresFull := f.requiresFull || invalidate, cleanupStarted := true)
  }

  lemma StoppedMeans(f: Flow, failed: bool, invalidate: bool)
    ensures var g := Stopped(f, failed, invalidate);
      && g.status == Stopping && g.target == (if failed then Failed else f.target) && g.cleanupStarted
      && g.invalidate == (f.invalidate || invalidate) && g.requiresFull == (f.requiresFull || invalidate)
      && g.op == f.op && g.transfers == f.transfers && g.project == f.project && g.session == f.session && g.stray == f.stray
  {
  }

  lemma Asked(f: Flow, failed: bool, invalidate: bool)
    ensures Requested(f, failed, invalidate) == Stopped(f, failed, invalidate) && Stopped(f, failed, invalidate).project == f.project
  {
  }

  lemma MarkedDirty(p: Project)
    ensures Written(p, Dirty, Synced) == p.(visible := Dirty, durable := Dirty)
    ensures Disturbed(Written(p, Dirty, Synced)).(changing := true) == Project(Dirty, Dirty, false, false, true, p.live)
    ensures Written(p, Dirty, Synced).settled == p.settled
  {
  }

  lemma MarkedClear(f: Flow, p: Project)
    requires f.op.CommitRemarking?
    ensures MarkedClean(p, true, Synced) == p.(visible := Clean, durable := Clean, durableSettled := p.settled)
    ensures AfterRemark(f, true).project == f.project
  {
  }

  lemma SameProject(f: Flow, result: CommitResult)
    requires f.op.Committing?
    ensures AfterCommit(f, result).project == f.project
  {
    match result
    case Applied =>
    case Undone(open) => Asked(f.(op := Idle), true, false);
    case Broken => Asked(f.(op := Idle, broken := true), true, true);
    hide Requested;
  }

  lemma SameProjectAfterExit(f: Flow, marked: bool)
    ensures AfterExit(f, marked).project == f.project
  {
    Asked(f.(op := Idle), true, true);
    hide Requested;
  }

  lemma Spawned(f: Flow, p: Project)
    requires f.status == Preparing
    ensures AfterSpawn(f, true, false) == f.(op := Idle, started := true, session := Some(Live), status := Running)
    ensures TreeAfterSpawn(p, true) == p.(settled := false, durableSettled := false, live := true)
  {
  }

  lemma StopsAtOnce(f: Flow)
    requires f.op.CleanStop? && f.session != Some(Live) && !f.stray
    ensures AfterStop(f) == if f.op.marks then CleanMark else CleanRead(false)
  {
  }

  lemma ReadAtOnce(f: Flow, p: Project)
    requires f.op.CleanRead?
    ensures AfterRead(f, p, true, true) == CleanEnd(f.op.marked, p.visible == Clean)
  {
  }

  method OpenPlan(m: WorkflowManager, id: nat, plan: nat, ghost s: Place)
    requires At(m, id, s) && s.f.op == Idle && s.f.transfers == 0 && s.f.status == Preparing && s.f.plan == None
    modifies m
    ensures At(m, id, s.(f := s.f.(plan := Some(plan))))
  {
    hide Sound, InStep, Moved, Forward, Safe, OpInStep, WorkflowManager.Valid, WorkflowManager.Exclusive, At, AfterCommit, TreeAfter, AfterRemark,
         AfterExit, AfterSpawn, TreeAfterSpawn, Requested, AfterStop, AfterRead, Written, MarkedClean, Disturbed;
    Here(m, id, s);
    There(m, id, s);
    ghost var flows, projects := m.flows, m.projects;
    var _ := m.OpenPlan(id, plan);
    ghost var t := s.(f := s.f.(plan := Some(plan)));
    Noted(m, id, flows, projects, s, t);
  }

  method BeginCommit(m: WorkflowManager, id: nat, plan: nat, readable: bool, ghost clean: bool, ghost s: Place)
    requires At(m, id, s) && s.f.op == Idle && s.f.transfers == 0 && s.f.status == Preparing && s.f.plan == Some(plan)
    requires clean <==> readable && s.p.visible == Clean
    modifies m
    ensures At(m, id, s.(f := s.f.(op := CommitMarking(clean))))
  {
    hide Sound, InStep, Moved, Forward, Safe, OpInStep, WorkflowManager.Valid, WorkflowManager.Exclusive, At, AfterCommit, TreeAfter, AfterRemark,
         AfterExit, AfterSpawn, TreeAfterSpawn, Requested, AfterStop, AfterRead, Written, MarkedClean, Disturbed;
    Here(m, id, s);
    There(m, id, s);
    ghost var flows, projects := m.flows, m.projects;
    var _ := m.BeginCommit(id, plan, readable);
    ghost var t := s.(f := s.f.(op := CommitMarking(clean)));
    Noted(m, id, flows, projects, s, t);
  }

  method MarkForCommit(m: WorkflowManager, id: nat, ghost s: Place)
    requires At(m, id, s) && s.f.op.CommitMarking?
    modifies m
    ensures At(m, id, s.(f := s.f.(op := Committing(s.f.op.wasClean, s.p.settled)), p := Project(Dirty, Dirty, false, false, true, s.p.live)))
  {
    hide Sound, InStep, Moved, Forward, Safe, OpInStep, WorkflowManager.Valid, WorkflowManager.Exclusive, At, AfterCommit, TreeAfter, AfterRemark,
         AfterExit, AfterSpawn, TreeAfterSpawn, Requested, AfterStop, AfterRead, Written, MarkedClean, Disturbed;
    Here(m, id, s);
    There(m, id, s);
    ghost var flows, projects := m.flows, m.projects;
    MarkedDirty(s.p);
    m.MarkForCommit(id, Synced);
    ghost var t := s.(f := s.f.(op := Committing(s.f.op.wasClean, s.p.settled)), p := Project(Dirty, Dirty, false, false, true, s.p.live));
    Noted(m, id, flows, projects, s, t);
  }

  method EndCommit(m: WorkflowManager, id: nat, result: CommitResult, ghost s: Place)
    requires At(m, id, s) && s.f.op.Committing?
    modifies m
    ensures At(m, id, s.(f := AfterCommit(s.f, result), p := TreeAfter(s.p, s.f.op, result)))
  {
    hide Sound, InStep, Moved, Forward, Safe, OpInStep, WorkflowManager.Valid, WorkflowManager.Exclusive, At, AfterCommit, TreeAfter, AfterRemark,
         AfterExit, AfterSpawn, TreeAfterSpawn, Requested, AfterStop, AfterRead, Written, MarkedClean, Disturbed;
    Here(m, id, s);
    There(m, id, s);
    ghost var flows, projects := m.flows, m.projects;
    SameProject(s.f, result);
    m.EndCommit(id, result);
    ghost var t := s.(f := AfterCommit(s.f, result), p := TreeAfter(s.p, s.f.op, result));
    Noted(m, id, flows, projects, s, t);
  }

  method MarkAfterCommit(m: WorkflowManager, id: nat, ghost s: Place)
    requires At(m, id, s) && s.f.op.CommitRemarking?
    modifies m
    ensures At(m, id, s.(f := AfterRemark(s.f, true), p := s.p.(visible := Clean, durable := Clean, durableSettled := s.p.settled)))
  {
    hide Sound, InStep, Moved, Forward, Safe, OpInStep, WorkflowManager.Valid, WorkflowManager.Exclusive, At, AfterCommit, TreeAfter, AfterRemark,
         AfterExit, AfterSpawn, TreeAfterSpawn, Requested, AfterStop, AfterRead, Written, MarkedClean, Disturbed;
    Here(m, id, s);
    There(m, id, s);
    ghost var flows, projects := m.flows, m.projects;
    MarkedClear(s.f, s.p);
    m.MarkAfterCommit(id, true, Synced);
    ghost var t := s.(f := AfterRemark(s.f, true), p := s.p.(visible := Clean, durable := Clean, durableSettled := s.p.settled));
    Noted(m, id, flows, projects, s, t);
  }

  method BeginStart(m: WorkflowManager, id: nat, ghost s: Place)
    requires At(m, id, s) && s.f.op == Idle && s.f.transfers == 0 && s.f.status == Preparing && !s.f.requiresFull && s.f.plan == None
    modifies m
    ensures At(m, id, s.(f := s.f.(op := StartMarking)))
  {
    hide Sound, InStep, Moved, Forward, Safe, OpInStep, WorkflowManager.Valid, WorkflowManager.Exclusive, At, AfterCommit, TreeAfter, AfterRemark,
         AfterExit, AfterSpawn, TreeAfterSpawn, Requested, AfterStop, AfterRead, Written, MarkedClean, Disturbed;
    Here(m, id, s);
    There(m, id, s);
    ghost var flows, projects := m.flows, m.projects;
    var _ := m.BeginStart(id);
    ghost var t := s.(f := s.f.(op := StartMarking));
    Noted(m, id, flows, projects, s, t);
  }

  method MarkForStart(m: WorkflowManager, id: nat, ghost s: Place)
    requires At(m, id, s) && s.f.op == StartMarking && s.f.status == Preparing
    modifies m
    ensures At(m, id, s.(f := s.f.(op := Spawning), p := s.p.(visible := Dirty, durable := Dirty)))
  {
    hide Sound, InStep, Moved, Forward, Safe, OpInStep, WorkflowManager.Valid, WorkflowManager.Exclusive, At, AfterCommit, TreeAfter, AfterRemark,
         AfterExit, AfterSpawn, TreeAfterSpawn, Requested, AfterStop, AfterRead, Written, MarkedClean, Disturbed;
    Here(m, id, s);
    There(m, id, s);
    ghost var flows, projects := m.flows, m.projects;
    MarkedDirty(s.p);
    m.MarkForStart(id, Synced);
    ghost var t := s.(f := s.f.(op := Spawning), p := s.p.(visible := Dirty, durable := Dirty));
    Noted(m, id, flows, projects, s, t);
  }

  method Spawn(m: WorkflowManager, id: nat, ghost s: Place)
    requires At(m, id, s) && s.f.op == Spawning && s.f.status == Preparing
    modifies m
    ensures At(m, id, s.(f := s.f.(op := Idle, started := true, session := Some(Live), status := Running), p := s.p.(settled := false, durableSettled := false, live := true)))
  {
    hide Sound, InStep, Moved, Forward, Safe, OpInStep, WorkflowManager.Valid, WorkflowManager.Exclusive, At, AfterCommit, TreeAfter, AfterRemark,
         AfterExit, AfterSpawn, TreeAfterSpawn, Requested, AfterStop, AfterRead, Written, MarkedClean, Disturbed;
    Here(m, id, s);
    There(m, id, s);
    ghost var flows, projects := m.flows, m.projects;
    Spawned(s.f, s.p);
    m.Spawn(id, true, false);
    ghost var t := s.(f := s.f.(op := Idle, started := true, session := Some(Live), status := Running), p := s.p.(settled := false, durableSettled := false, live := true));
    Noted(m, id, flows, projects, s, t);
  }

  method SessionEnds(m: WorkflowManager, id: nat, exitZero: bool, ghost s: Place)
    requires At(m, id, s) && s.f.session == Some(Live)
    modifies m
    ensures At(m, id, s.(f := s.f.(session := Some(Gone(exitZero))), p := s.p.(live := false, settled := exitZero)))
  {
    hide Sound, InStep, Moved, Forward, Safe, OpInStep, WorkflowManager.Valid, WorkflowManager.Exclusive, At, AfterCommit, TreeAfter, AfterRemark,
         AfterExit, AfterSpawn, TreeAfterSpawn, Requested, AfterStop, AfterRead, Written, MarkedClean, Disturbed;
    Here(m, id, s);
    There(m, id, s);
    ghost var flows, projects := m.flows, m.projects;
    m.SessionEnds(id, exitZero);
    ghost var t := s.(f := s.f.(session := Some(Gone(exitZero))), p := s.p.(live := false, settled := exitZero));
    Noted(m, id, flows, projects, s, t);
  }

  method BeginObserve(m: WorkflowManager, id: nat, ghost s: Place)
    requires At(m, id, s) && s.f.op == Idle && s.f.transfers == 0 && s.f.status == Running && s.f.session in {Some(Gone(true)), Some(Gone(false))}
    modifies m
    ensures At(m, id, s.(f := if s.f.session == Some(Gone(true)) then s.f.(op := ObserveMarking) else Stopped(s.f, true, true)))
  {
    hide Sound, InStep, Moved, Forward, Safe, OpInStep, WorkflowManager.Valid, WorkflowManager.Exclusive, At, AfterCommit, TreeAfter, AfterRemark,
         AfterExit, AfterSpawn, TreeAfterSpawn, Requested, AfterStop, AfterRead, Written, MarkedClean, Disturbed;
    Here(m, id, s);
    There(m, id, s);
    ghost var flows, projects := m.flows, m.projects;
    Asked(s.f, true, true);
    var _ := m.BeginObserve(id);
    ghost var t := s.(f := if s.f.session == Some(Gone(true)) then s.f.(op := ObserveMarking) else Stopped(s.f, true, true));
    Noted(m, id, flows, projects, s, t);
  }

  method MarkAfterExit(m: WorkflowManager, id: nat, treeSynced: bool, w: Write, ghost marked: bool, ghost s: Place)
    requires At(m, id, s) && s.f.op == ObserveMarking
    requires marked <==> treeSynced && w == Synced
    modifies m
    ensures At(m, id, s.(f := AfterExit(s.f, marked), p := MarkedClean(s.p, treeSynced, w)))
  {
    hide Sound, InStep, Moved, Forward, Safe, OpInStep, WorkflowManager.Valid, WorkflowManager.Exclusive, At, AfterCommit, TreeAfter, AfterRemark,
         AfterExit, AfterSpawn, TreeAfterSpawn, Requested, AfterStop, AfterRead, Written, MarkedClean, Disturbed;
    Here(m, id, s);
    There(m, id, s);
    ghost var flows, projects := m.flows, m.projects;
    SameProjectAfterExit(s.f, marked);
    m.MarkAfterExit(id, treeSynced, w);
    ghost var t := s.(f := AfterExit(s.f, marked), p := MarkedClean(s.p, treeSynced, w));
    Noted(m, id, flows, projects, s, t);
  }

  method RequestCleanup(m: WorkflowManager, id: nat, failed: bool, invalidate: bool, ghost s: Place)
    requires At(m, id, s) && true
    modifies m
    ensures At(m, id, s.(f := Stopped(s.f, failed, invalidate)))
  {
    hide Sound, InStep, Moved, Forward, Safe, OpInStep, WorkflowManager.Valid, WorkflowManager.Exclusive, At, AfterCommit, TreeAfter, AfterRemark,
         AfterExit, AfterSpawn, TreeAfterSpawn, Requested, AfterStop, AfterRead, Written, MarkedClean, Disturbed;
    Here(m, id, s);
    There(m, id, s);
    ghost var flows, projects := m.flows, m.projects;
    Asked(s.f, failed, invalidate);
    m.RequestCleanup(id, failed, invalidate);
    ghost var t := s.(f := Stopped(s.f, failed, invalidate));
    Noted(m, id, flows, projects, s, t);
  }

  method StrayEnds(m: WorkflowManager, id: nat, ghost s: Place)
    requires At(m, id, s) && s.f.stray && s.f.session == None
    modifies m
    ensures At(m, id, s.(f := s.f.(stray := false), p := s.p.(live := false)))
  {
    hide Sound, InStep, Moved, Forward, Safe, OpInStep, WorkflowManager.Valid, WorkflowManager.Exclusive, At, AfterCommit, TreeAfter, AfterRemark,
         AfterExit, AfterSpawn, TreeAfterSpawn, Requested, AfterStop, AfterRead, Written, MarkedClean, Disturbed;
    Here(m, id, s);
    There(m, id, s);
    ghost var flows, projects := m.flows, m.projects;
    m.StrayEnds(id);
    ghost var t := s.(f := s.f.(stray := false), p := s.p.(live := false));
    Noted(m, id, flows, projects, s, t);
  }

  method BeginCleanup(m: WorkflowManager, id: nat, ghost s: Place)
    requires At(m, id, s) && s.f.cleanupStarted && s.f.status == Stopping && s.f.transfers == 0 && s.f.op in {Idle, CleanWait}
    modifies m
    ensures At(m, id, s.(f := s.f.(op := CleanStop(s.f.invalidate))))
  {
    hide Sound, InStep, Moved, Forward, Safe, OpInStep, WorkflowManager.Valid, WorkflowManager.Exclusive, At, AfterCommit, TreeAfter, AfterRemark,
         AfterExit, AfterSpawn, TreeAfterSpawn, Requested, AfterStop, AfterRead, Written, MarkedClean, Disturbed;
    Here(m, id, s);
    There(m, id, s);
    ghost var flows, projects := m.flows, m.projects;
    m.BeginCleanup(id);
    ghost var t := s.(f := s.f.(op := CleanStop(s.f.invalidate)));
    Noted(m, id, flows, projects, s, t);
  }

  method CleanupStop(m: WorkflowManager, id: nat, ghost s: Place)
    requires At(m, id, s) && s.f.op.CleanStop? && s.f.session != Some(Live) && !s.f.stray
    modifies m
    ensures At(m, id, s.(f := s.f.(op := if s.f.op.marks then CleanMark else CleanRead(false))))
  {
    hide Sound, InStep, Moved, Forward, Safe, OpInStep, WorkflowManager.Valid, WorkflowManager.Exclusive, At, AfterCommit, TreeAfter, AfterRemark,
         AfterExit, AfterSpawn, TreeAfterSpawn, Requested, AfterStop, AfterRead, Written, MarkedClean, Disturbed;
    Here(m, id, s);
    There(m, id, s);
    ghost var flows, projects := m.flows, m.projects;
    StopsAtOnce(s.f);
    m.CleanupStop(id);
    ghost var t := s.(f := s.f.(op := if s.f.op.marks then CleanMark else CleanRead(false)));
    Noted(m, id, flows, projects, s, t);
  }

  method CleanupMark(m: WorkflowManager, id: nat, ghost s: Place)
    requires At(m, id, s) && s.f.op == CleanMark
    modifies m
    ensures At(m, id, s.(f := s.f.(op := CleanRead(true)), p := s.p.(visible := Dirty, durable := Dirty)))
  {
    hide Sound, InStep, Moved, Forward, Safe, OpInStep, WorkflowManager.Valid, WorkflowManager.Exclusive, At, AfterCommit, TreeAfter, AfterRemark,
         AfterExit, AfterSpawn, TreeAfterSpawn, Requested, AfterStop, AfterRead, Written, MarkedClean, Disturbed;
    Here(m, id, s);
    There(m, id, s);
    ghost var flows, projects := m.flows, m.projects;
    MarkedDirty(s.p);
    m.CleanupMark(id, Synced);
    ghost var t := s.(f := s.f.(op := CleanRead(true)), p := s.p.(visible := Dirty, durable := Dirty));
    Noted(m, id, flows, projects, s, t);
  }

  method CleanupRead(m: WorkflowManager, id: nat, ghost s: Place)
    requires At(m, id, s) && s.f.op.CleanRead?
    modifies m
    ensures At(m, id, s.(f := s.f.(op := CleanEnd(s.f.op.marked, s.p.visible == Clean))))
  {
    hide Sound, InStep, Moved, Forward, Safe, OpInStep, WorkflowManager.Valid, WorkflowManager.Exclusive, At, AfterCommit, TreeAfter, AfterRemark,
         AfterExit, AfterSpawn, TreeAfterSpawn, Requested, AfterStop, AfterRead, Written, MarkedClean, Disturbed;
    Here(m, id, s);
    There(m, id, s);
    ghost var flows, projects := m.flows, m.projects;
    ReadAtOnce(s.f, s.p);
    m.CleanupRead(id, true, true);
    ghost var t := s.(f := s.f.(op := CleanEnd(s.f.op.marked, s.p.visible == Clean)));
    Noted(m, id, flows, projects, s, t);
  }

  // ---------------------------------------------------------------- what they add up to

  lemma Free(m: WorkflowManager, id: nat, status: Status) returns (s: Place)
    requires m.Valid() && m.Exclusive(id, status)
    ensures At(m, id, s) && s == Place(m.flows, m.projects, m.flows[id], m.Of(id)) && m.Of(id) == m.projects[m.flows[id].project]
    ensures m.On(id) && m.active == Some(id) && s.f.op == Idle && s.f.transfers == 0 && s.f.status == status && InStep(s.f, s.p)
  {
    hide Sound, InStep;
    s := Now(m, id);
    Here(m, id, s);
  }

  lemma IdleAtRest(f: Flow, p: Project)
    requires InStep(f, p) && f.op == Idle && f.session != Some(Live) && !f.stray
    ensures !p.changing && !p.live && AtRest(p)
  {
  }

  lemma NotStarted(f: Flow, p: Project)
    requires InStep(f, p) && f.status == Preparing
    ensures f.session == None && !f.stray && !f.started && !f.invalidate
  {
  }

  lemma ExitOutcome(f: Flow, p: Project, treeSynced: bool, w: Write)
    requires f.status == Running && !p.changing && !p.live && !p.durableSettled
    ensures var g, q := AfterExit(f, treeSynced && w == Synced), MarkedClean(p, treeSynced, w);
      && g.project == f.project && g.op == Idle && g.transfers == f.transfers && q.settled == p.settled && AtRest(q) && AtRest(p)
      && (treeSynced && w == Synced ==> g == f.(op := Idle, status := Pulling, requiresFull := false))
      && (treeSynced && w == Synced && p.settled ==> Trusted(q))
      && (!(treeSynced && w == Synced) ==> g.status == Stopping && g.target == Failed && g.invalidate && g.requiresFull)
  {
  }

  /** Start the session of a pushed project, and observe its end. Pulling follows exactly when it
      ended with status zero and the project could be trusted again; otherwise the workflow fails,
      and asks for a full upload. */
  method RunSession(m: WorkflowManager, id: nat, exitZero: bool, treeSynced: bool, w: Write)
    requires m.Valid() && m.Exclusive(id, Preparing) && !m.flows[id].requiresFull && m.flows[id].plan == None
    modifies m
    ensures m.Valid() && m.On(id) && m.active == old(m.active)
    ensures m.flows == old(m.flows)[id := m.flows[id]] && m.projects == old(m.projects)[m.flows[id].project := m.Of(id)]
    ensures m.flows[id].project == old(m.flows)[id].project && m.flows[id].op == Idle && m.flows[id].transfers == 0
    ensures m.Of(id).settled == exitZero && AtRest(m.Of(id))
    ensures exitZero && treeSynced && w == Synced ==>
      m.flows[id].status == Pulling && !m.flows[id].requiresFull && !m.flows[id].invalidate && Trusted(m.Of(id))
    ensures !(exitZero && treeSynced && w == Synced) ==>
      m.flows[id].status == Stopping && m.flows[id].target == Failed && m.flows[id].invalidate && m.flows[id].requiresFull
  {
    hide *;
    ghost var s := Free(m, id, Preparing);
    NotStarted(s.f, s.p);
    IdleAtRest(s.f, s.p);
    BeginStart(m, id, s);
    s := s.(f := s.f.(op := StartMarking));
    MarkForStart(m, id, s);
    s := s.(f := s.f.(op := Spawning), p := s.p.(visible := Dirty, durable := Dirty));
    Spawn(m, id, s);
    s := s.(f := s.f.(op := Idle, started := true, session := Some(Live), status := Running), p := Project(Dirty, Dirty, false, false, false, true));
    SessionEnds(m, id, exitZero, s);
    s := s.(f := s.f.(session := Some(Gone(exitZero))), p := s.p.(live := false, settled := exitZero));
    BeginObserve(m, id, s);
    ExitOutcome(s.f.(op := ObserveMarking), s.p, treeSynced, w);
    if exitZero {
      s := s.(f := s.f.(op := ObserveMarking));
      ghost var marked := treeSynced && w == Synced;
      MarkAfterExit(m, id, treeSynced, w, marked, s);
      s := s.(f := AfterExit(s.f, marked), p := MarkedClean(s.p, treeSynced, w));
    } else {
      StoppedMeans(s.f, true, true);
      s := s.(f := Stopped(s.f, true, true));
    }
    There(m, id, s);
  }

  /** Create, push, run with exit status zero, and finish, with nothing failing: the record is
      completed without asking for a full upload, and the project can be trusted. */
  method Build(m: WorkflowManager, id: nat, project: nat, reset: bool, plan: nat)
    requires m.Valid() && project in m.projects && m.active == None && !m.stopping && id !in m.flows
    requires reset || m.projects[project].visible == Clean
    modifies m
    ensures m.Valid() && m.active == None
    ensures m.flows.Keys == old(m.flows).Keys + {id} && forall k :: k in old(m.flows) ==> m.flows[k] == old(m.flows)[k]
    ensures m.flows[id].status == Completed && !m.flows[id].requiresFull && m.flows[id].project == project
    ensures m.projects.Keys == old(m.projects).Keys && m.projects[project] == Project(Clean, Clean, true, true, false, false)
    ensures forall q :: q in m.projects && q != project ==> m.projects[q] == old(m.projects)[q]
  {
    hide Sound, InStep, Moved, Forward, Safe, OpInStep, WorkflowManager.Valid, WorkflowManager.Exclusive, At, Finished, NewFlow, Trusted;
    Push(m, id, project, reset, plan);
    RunSession(m, id, true, true, Synced);
    ghost var s := Now(m, id);
    Here(m, id, s);
    var done := m.Finish(id, true);
    FinishedMeans(s.f);
    TrustedMeans(s.p);
  }

  lemma TrustedMeans(p: Project)
    ensures Trusted(p) <==> p == Project(Clean, Clean, true, true, false, false)
  {
  }

  lemma FinishedMeans(f: Flow)
    ensures var g := Finished(f, Completed, false, Clean); g.status == Completed && !g.requiresFull && g.project == f.project
  {
  }

  /** Create the workflow and commit the client's tree. */
  method Push(m: WorkflowManager, id: nat, project: nat, reset: bool, plan: nat)
    requires m.Valid() && project in m.projects && m.active == None && !m.stopping && id !in m.flows
    requires reset || m.projects[project].visible == Clean
    modifies m
    ensures m.Valid() && m.Exclusive(id, Preparing) && !m.flows[id].requiresFull && m.flows[id].plan == None
    ensures m.flows[id].project == project && m.flows == old(m.flows)[id := m.flows[id]]
    ensures m.projects == old(m.projects)[project := m.Of(id)] && m.Of(id).settled && AtRest(m.Of(id))
  {
    hide *;
    ghost var fs := m.flows;
    Created(m, id, project, reset);
    ghost var f := m.flows[id];
    ghost var s := Free(m, id, Preparing);
    OpenPlan(m, id, plan, s);
    s := s.(f := s.f.(plan := Some(plan)));
    BeginEngine(m, id, plan, true, s);
    s := s.(f := s.f.(op := Committing(s.p.visible == Clean, s.p.settled)), p := Project(Dirty, Dirty, false, false, true, false));
    EndCommit(m, id, Applied, s);
    CommitOutcome(s.f, s.p);
    s := s.(f := AfterCommit(s.f, Applied), p := TreeAfter(s.p, s.f.op, Applied));
    Here(m, id, s);
    There(m, id, s);
    UpdatedAgain(fs, id, f, s.f);
  }

  /** Everything before the commit engine runs. */
  method BeginEngine(m: WorkflowManager, id: nat, plan: nat, readable: bool, ghost s: Place)
    requires At(m, id, s) && s.f.op == Idle && s.f.transfers == 0 && s.f.status == Preparing && s.f.plan == Some(plan)
    modifies m
    ensures At(m, id, s.(f := s.f.(op := Committing(readable && s.p.visible == Clean, s.p.settled)), p := Project(Dirty, Dirty, false, false, true, false)))
    ensures !s.p.changing && !s.p.live && !s.f.invalidate
  {
    hide *;
    Here(m, id, s);
    NotStarted(s.f, s.p);
    IdleAtRest(s.f, s.p);
    ghost var clean := readable && s.p.visible == Clean;
    BeginCommit(m, id, plan, readable, clean, s);
    MarkForCommit(m, id, s.(f := s.f.(op := CommitMarking(clean))));
  }

  lemma UpdatedAgain<V>(m: map<nat, V>, k: nat, a: V, b: V)
    ensures m[k := a][k := b] == m[k := b]
  {
  }

  lemma CommitOutcome(f: Flow, p: Project)
    requires f.op.Committing?
    ensures AfterCommit(f, Applied) == f.(op := Idle, plan := None, requiresFull := false, baselineClean := true)
    ensures TreeAfter(p, f.op, Applied) == p.(changing := false, settled := true)
    ensures !p.live ==> AtRest(TreeAfter(p, f.op, Applied))
  {
  }

  method Created(m: WorkflowManager, id: nat, project: nat, reset: bool)
    requires m.Valid() && project in m.projects && m.active == None && !m.stopping && id !in m.flows
    requires reset || m.projects[project].visible == Clean
    modifies m
    ensures m.Valid() && m.Exclusive(id, Preparing) && m.flows[id].plan == None && m.flows[id].project == project
    ensures m.flows == old(m.flows)[id := m.flows[id]] && m.projects == old(m.projects)
  {
    hide Sound, InStep, Moved, Forward, Safe, OpInStep, WorkflowManager.Valid, Finished;
    var ok := m.Create(id, project, reset);
    ok := m.Initialize(id, true, true);
  }

  /** A commit that the engine undid. While the plan is open for missing uploads, the record is as it
      was; otherwise the workflow fails, without invalidating the project. The tree is as it was,
      and the marker is clean again exactly if it was readably clean before, or, when the plan is
      over, if the project was trusted when the workflow began. */
  method RefusedCommit(m: WorkflowManager, id: nat, plan: nat, readable: bool, open: bool)
    requires m.Valid() && m.Exclusive(id, Preparing) && m.flows[id].plan == Some(plan)
    modifies m
    ensures m.Valid() && m.On(id) && m.active == old(m.active)
    ensures m.flows == old(m.flows)[id := m.flows[id]] && m.projects == old(m.projects)[m.flows[id].project := m.Of(id)]
    ensures m.flows[id] == if open then old(m.flows)[id]
                           else old(m.flows)[id].(status := Stopping, target := Failed, cleanupStarted := true)
    ensures m.Of(id).settled == old(m.Of(id)).settled && AtRest(m.Of(id)) && m.Of(id).durable == m.Of(id).visible
    ensures m.Of(id).visible == if (if open then readable && old(m.Of(id)).visible == Clean else old(m.flows)[id].baselineClean) then Clean else Dirty
  {
    hide *;
    ghost var s := Free(m, id, Preparing);
    ghost var clean := readable && s.p.visible == Clean;
    BeginEngine(m, id, plan, readable, s);
    ghost var t := EndUndone(m, id, open, s.(f := s.f.(op := Committing(clean, s.p.settled)), p := Project(Dirty, Dirty, false, false, true, false)));
    RefusedMeans(s.f, Committing(clean, s.p.settled), open, t.f);
    There(m, id, t);
  }

  /** The record after a refused commit: it can be tried again, or the workflow failed without
      invalidating its project. */
  predicate Refused(f: Flow, open: bool, g: Flow) {
    g == if open then f.(op := Idle) else f.(op := Idle, status := Stopping, target := Failed, cleanupStarted := true)
  }

  lemma RefusedMeans(f: Flow, op: Op, open: bool, g: Flow)
    requires Refused(f.(op := op), open, g) && f.op == Idle
    ensures g == if open then f else f.(status := Stopping, target := Failed, cleanupStarted := true)
  {
  }

  method EndUndone(m: WorkflowManager, id: nat, open: bool, ghost s: Place) returns (ghost t: Place)
    requires At(m, id, s) && s.f.op.Committing? && s.f.status == Preparing && !s.f.invalidate && !s.p.live
    modifies m
    ensures At(m, id, t) && t == s.(f := t.f, p := t.p) && Refused(s.f, open, t.f) && AtRest(t.p)
    ensures t.p.settled == s.f.op.settledBefore
    ensures var clean := if open then s.f.op.wasClean else s.f.baselineClean;
      t.p.visible == (if clean then Clean else s.p.visible) && t.p.durable == (if clean then Clean else s.p.durable)
  {
    hide *;
    EndCommit(m, id, Undone(open), s);
    UndoneOutcome(s.f, open);
    UndoneTree(s.f, s.p, open);
    t := s.(f := AfterCommit(s.f, Undone(open)), p := TreeAfter(s.p, s.f.op, Undone(open)));
    There(m, id, t);
    if m.flows[id].op.CommitRemarking? {
      MarkAfterCommit(m, id, t);
      t := t.(f := AfterRemark(t.f, true), p := t.p.(visible := Clean, durable := Clean, durableSettled := t.p.settled));
    }
    RestMeans(t.p);
  }

  lemma UndoneOutcome(f: Flow, open: bool)
    requires f.op.Committing? && f.status == Preparing && !f.invalidate
    ensures var g, clean := AfterCommit(f, Undone(open)), if open then f.op.wasClean else f.baselineClean;
      (g.op.CommitRemarking? <==> clean) && g.project == f.project && Refused(f, open, if clean then AfterRemark(g, true) else g)
  {
    Asked(f.(op := Idle), true, false);
    hide Requested;
  }

  lemma UndoneTree(f: Flow, p: Project, open: bool)
    requires f.op.Committing?
    ensures TreeAfter(p, f.op, Undone(open)) == p.(changing := false, settled := f.op.settledBefore)
  {
  }

  lemma RestMeans(p: Project)
    ensures AtRest(p) <==> !p.changing && !p.live
  {
  }

  /** A workflow is asked to stop, its session or what is left of its start ends, and cleanup goes
      through. The record ends as failed if ever a failure asked for it, and otherwise as
      cancelled. An invalidated project is marked dirty; every other keeps its marker, and a
      full upload is asked for exactly if that is not clean. */
  method Cleanup(m: WorkflowManager, id: nat, failed: bool, invalidate: bool, exitZero: bool)
    requires m.Valid() && m.On(id) && m.flows[id].op == Idle && m.flows[id].transfers == 0
    modifies m
    ensures m.Valid() && m.active == None && m.projects.Keys == old(m.projects).Keys
    ensures m.flows.Keys == old(m.flows).Keys && (forall k :: k in m.flows && k != id ==> m.flows[k] == old(m.flows)[k])
    ensures m.flows[id].project == old(m.flows)[id].project && m.flows[id].project in m.projects
    ensures m.flows[id].status == if failed || old(m.flows)[id].target == Failed then Failed else Cancelled
    ensures forall q :: q in m.projects && q != m.flows[id].project ==> m.projects[q] == old(m.projects)[q]
    ensures var p, q := old(m.Of(id)), m.Of(id);
      && (if old(m.flows)[id].invalidate || invalidate then q.visible == q.durable == Dirty else q.visible == p.visible && q.durable == p.durable)
      && (m.flows[id].requiresFull <==> q.visible != Clean) && AtRest(q)
  {
    hide *;
    ghost var s := Now(m, id);
    Here(m, id, s);
    ghost var t := StopAll(m, id, failed, invalidate, exitZero, s);
    t := CleanUp(m, id, t);
    There(m, id, t);
    TargetKnown(s.f, s.p);
    var done := m.CleanupEnd(id);
    EndMeans(t.f, t.f.target, !t.f.op.clean, t.p.visible);
    Where(m, id);
  }

  lemma Where(m: WorkflowManager, id: nat)
    requires id in m.flows && m.flows[id].project in m.projects
    ensures m.Of(id) == m.projects[m.flows[id].project]
  {
  }

  /** The request, and the end of whatever still runs. */
  method StopAll(m: WorkflowManager, id: nat, failed: bool, invalidate: bool, exitZero: bool, ghost s: Place) returns (ghost t: Place)
    requires At(m, id, s) && s.f.op == Idle && s.f.transfers == 0
    modifies m
    ensures At(m, id, t) && t == s.(f := t.f, p := t.p)
    ensures t.f.session != Some(Live) && !t.f.stray && t.f.cleanupStarted && t.f.status == Stopping && t.f.transfers == 0 && t.f.op == Idle
    ensures t.f.invalidate == (s.f.invalidate || invalidate) && t.f.target == (if failed then Failed else s.f.target) && t.f.project == s.f.project
    ensures t.p.visible == s.p.visible && t.p.durable == s.p.durable
  {
    hide *;
    Here(m, id, s);
    TargetKnown(s.f, s.p);
    var f := m.flows[id];
    RequestCleanup(m, id, failed, invalidate, s);
    StoppedMeans(s.f, failed, invalidate);
    t := s.(f := Stopped(s.f, failed, invalidate));
    if f.session == Some(Live) {
      SessionEnds(m, id, exitZero, t);
      t := t.(f := t.f.(session := Some(Gone(exitZero))), p := t.p.(live := false, settled := exitZero));
    } else if f.stray {
      StrayEnds(m, id, t);
      t := t.(f := t.f.(stray := false), p := t.p.(live := false));
    }
  }

  /** Cleanup up to its last look at the marker. */
  method CleanUp(m: WorkflowManager, id: nat, ghost s: Place) returns (ghost t: Place)
    requires At(m, id, s) && s.f.session != Some(Live) && !s.f.stray && s.f.cleanupStarted && s.f.status == Stopping && s.f.transfers == 0 && s.f.op == Idle
    modifies m
    ensures At(m, id, t) && t == s.(f := t.f, p := t.p) && t.f == s.f.(op := t.f.op) && AtRest(t.p)
    ensures t.f.op == CleanEnd(s.f.invalidate, t.p.visible == Clean)
    ensures t.p == if s.f.invalidate then s.p.(visible := Dirty, durable := Dirty) else s.p
  {
    hide *;
    t := s;
    BeginCleanup(m, id, t);
    t := t.(f := t.f.(op := CleanStop(t.f.invalidate)));
    CleanupStop(m, id, t);
    t := t.(f := t.f.(op := if t.f.op.marks then CleanMark else CleanRead(false)));
    There(m, id, t);
    if m.flows[id].op == CleanMark {
      CleanupMark(m, id, t);
      t := t.(f := t.f.(op := CleanRead(true)), p := t.p.(visible := Dirty, durable := Dirty));
    }
    CleanupRead(m, id, t);
    t := t.(f := t.f.(op := CleanEnd(t.f.op.marked, t.p.visible == Clean)));
    Here(m, id, t);
    CleanAtRest(t.f, t.p);
  }

  lemma TargetKnown(f: Flow, p: Project)
    requires InStep(f, p)
    ensures f.target in {Cancelled, Failed} && (f.stray ==> f.session == None)
  {
  }

  lemma CleanAtRest(f: Flow, p: Project)
    requires InStep(f, p) && f.op.CleanEnd?
    ensures AtRest(p)
  {
  }

  lemma EndMeans(f: Flow, status: Status, requiresFull: bool, marker: Marker)
    ensures var g := Finished(f, status, requiresFull, marker); g.status == status && g.requiresFull == requiresFull && g.project == f.project
  {
  }
}
