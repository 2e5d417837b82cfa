/** Workflow lifecycle and the durable clean marker. Each method is one step that some task of
    the service takes under the locks it holds; a run is any interleaving of steps. */
module Workflow {
  import opened Paths

  datatype Status = Preparing | Running | Pulling | Stopping | Completed | Cancelled | Failed

  predicate Terminal(s: Status) { s == Completed || s == Cancelled || s == Failed }

  function Rank(s: Status): nat {
    match s
    case Preparing => 0
    case Running => 1
    case Pulling => 2
    case Stopping => 3
    case _ => 4
  }

  // ---------------------------------------------------------------- the marker on disk

  datatype Marker = Absent | Dirty | Clean

  /** A project: the marker a reader sees, the marker a power loss would leave, what the tree is
      like, and what the tree on stable storage is like. A tree is settled when it is an earlier
      clean one, the result of a fully applied commit, or what a session left that exited with
      status zero. */
  datatype Project = Project(visible: Marker, durable: Marker, settled: bool, durableSettled: bool, changing: bool, live: bool)

  /** A clean marker can be trusted, now and after a power loss: no commit is under way, no
      session process runs, and the tree is settled, in memory and on stable storage. */
  predicate Safe(p: Project) {
    p.visible == Clean || p.durable == Clean ==> p.settled && p.durableSettled && !p.changing && !p.live
  }

  /** Nobody works on the project, and a clean marker that it may have tells the truth. */
  ghost predicate Unharmed(p: Project) {
    !p.changing && !p.live && (p.visible == Clean || p.durable == Clean ==> p.settled && p.durableSettled)
  }

  predicate AtRest(p: Project) { !p.changing && !p.live }

  /** How far replacing the marker file got: a failure before the rename, a failure to sync the
      directory after it (with the rename durable or not), or success. */
  datatype Write = NotWritten | Unsynced(persisted: bool) | Synced

  /** `atomic_marker`. */
  function Written(p: Project, m: Marker, w: Write): Project {
    match w
    case NotWritten => p
    case Unsynced(persisted) => p.(visible := m, durable := if persisted then m else p.durable)
    case Synced => p.(visible := m, durable := m)
  }

  /** `mark_clean`: the whole file system is synced before the marker is replaced. Whatever the
      tree is like now, it is like that on stable storage then. */
  function MarkedClean(p: Project, treeSynced: bool, w: Write): Project {
    if treeSynced then Written(p.(durableSettled := p.settled), Clean, w) else p
  }

  /** The tree starts to change: nothing is known of what is on stable storage. */
  function Disturbed(p: Project): Project {
    p.(settled := false, durableSettled := false)
  }

  // ---------------------------------------------------------------- a workflow

  datatype Session = Live | Gone(exitZero: bool)

  /** What the task that holds the activity lock for writing is about to do. */
  datatype Op =
    | Idle
    | Init
    | CommitMarking(wasClean: bool)
    | Committing(wasClean: bool, settledBefore: bool)
    | CommitRemarking(stillOpen: bool)
    | StartMarking
    | Spawning
    | ObserveMarking
    | CleanStop(marks: bool)
    | CleanMark
    | CleanRead(marked: bool)
    | CleanEnd(marked: bool, clean: bool)
    | CleanWait

  datatype Flow = Flow(
    project: nat,
    reset: bool,
    status: Status,
    requiresFull: bool,
    baselineClean: bool,
    invalidate: bool,
    cleanupStarted: bool,
    target: Status,
    plan: Option<nat>,
    session: Option<Session>,
    stray: bool,
    started: bool,
    broken: bool,
    transfers: nat,
    op: Op,
    markerAtEnd: Marker)

  predicate Cleaning(op: Op) {
    op.CleanStop? || op.CleanMark? || op.CleanRead? || op.CleanEnd? || op.CleanWait?
  }

  predicate SessionOver(f: Flow) {
    f.session != Some(Live) && !f.stray
  }

  /** What a workflow that is not terminal and its project have to do with each other. */
  predicate InStep(f: Flow, p: Project) {
    && Safe(p)
    && (f.op != Idle ==> f.transfers == 0)
    && p.changing == f.op.Committing? && p.live == (f.session == Some(Live) || f.stray)
    && (f.session.Some? || f.stray ==> f.started) && !(f.session.Some? && f.stray)
    && f.target in {Cancelled, Failed}
    && (!f.started && f.baselineClean && !p.changing && !f.broken ==> p.settled)
    && (f.broken ==> f.status == Stopping && (f.op == Idle || Cleaning(f.op)))
    && (f.session == Some(Gone(true)) ==> p.settled)
    && (f.op.Init? ==> f.status in {Preparing, Stopping} && !f.baselineClean && !f.started)
    && (f.status == Preparing ==> !f.started)
    && (f.status == Running ==> f.session.Some? && f.op in {Idle, ObserveMarking})
    && (f.status == Pulling ==> f.op == Idle && p.visible == Clean && SessionOver(f))
    && (f.status == Stopping ==> f.cleanupStarted)
    && (f.invalidate ==> f.status == Stopping)
    && OpInStep(f, p)
  }

  predicate OpInStep(f: Flow, p: Project) {
    match f.op
    case CommitMarking(wasClean) => !f.started && (wasClean ==> p.settled)
    case Committing(wasClean, before) => !f.started && (wasClean || f.baselineClean ==> before)
    case CommitRemarking(_) => !f.started && p.settled
    case StartMarking => !f.started
    case Spawning => !f.started && p.visible == Dirty && p.durable == Dirty
    case ObserveMarking => f.session == Some(Gone(true))
    case CleanStop(_) => f.status == Stopping
    case CleanMark => f.status == Stopping && SessionOver(f)
    case CleanRead(marked) => f.status == Stopping && SessionOver(f) && (marked ==> p.visible == Dirty)
    case CleanEnd(marked, clean) =>
      f.status == Stopping && SessionOver(f) && (marked ==> p.visible == Dirty) && (clean ==> p.visible == Clean)
    case CleanWait => f.status == Stopping
    case _ => true
  }

  /** A finished record: nobody works on it, a project that need not be uploaded in full had a
      clean marker when the record ended, and an invalidated one has to be. */
  predicate Ended(f: Flow) {
    && f.transfers == 0 && f.op == Idle
    && (!f.requiresFull ==> f.markerAtEnd == Clean)
    && (f.invalidate ==> f.requiresFull)
  }

  /** A record only moves forward, and not at all once it is terminal. */
  predicate Forward(f: Flow, g: Flow) {
    && Rank(f.status) <= Rank(g.status) && f.project == g.project
    && (Rank(f.status) == Rank(g.status) ==> f.status == g.status)
    && (Terminal(f.status) ==> f == g)
  }

  lemma ForwardTransitive(f: Flow, g: Flow, h: Flow)
    requires Forward(f, g) && Forward(g, h)
    ensures Forward(f, h)
  {
  }

  /** At most one workflow is not terminal, it is the active one, and it is in step with its
      project; every other project is at rest. */
  ghost predicate Sound(active: Option<nat>, flows: map<nat, Flow>, projects: map<nat, Project>) {
    && (active.Some? ==> active.value in flows && !Terminal(flows[active.value].status))
    && (forall id :: id in flows && !Terminal(flows[id].status) ==> active == Some(id))
    && (forall id :: id in flows ==> flows[id].project in projects)
    && (forall id :: id in flows && Terminal(flows[id].status) ==> Ended(flows[id]))
    && (active.Some? ==> InStep(flows[active.value], projects[flows[active.value].project]))
    && (forall q :: q in projects ==> Safe(projects[q]))
    && (forall q :: q in projects && !(active.Some? && flows[active.value].project == q) ==> AtRest(projects[q]))
  }

  /** No record went back, and none but `id` changed. */
  ghost predicate Moved(before: map<nat, Flow>, after: map<nat, Flow>, id: nat) {
    && before.Keys <= after.Keys
    && forall k :: k in before ==> Forward(before[k], after[k]) && (k != id ==> after[k] == before[k])
  }

  /** The active workflow takes a step with its project. */
  lemma StepSound(active: Option<nat>, flows: map<nat, Flow>, projects: map<nat, Project>, id: nat, f: Flow, p: Project)
    requires Sound(active, flows, projects) && active == Some(id)
    requires Forward(flows[id], f) && !Terminal(f.status) && InStep(f, p)
    ensures Sound(active, flows[id := f], projects[f.project := p]) && Moved(flows, flows[id := f], id)
  {
  }

  lemma EndSound(active: Option<nat>, flows: map<nat, Flow>, projects: map<nat, Project>, id: nat, f: Flow)
    requires Sound(active, flows, projects) && active == Some(id) && AtRest(projects[flows[id].project])
    requires Forward(flows[id], f) && Terminal(f.status) && Ended(f)
    ensures Sound(None, flows[id := f], projects) && Moved(flows, flows[id := f], id)
  {
  }

  /** A workflow whose session is over and that is not committing leaves its project at rest. */
  lemma OverAtRest(f: Flow, p: Project)
    requires InStep(f, p) && SessionOver(f) && !f.op.Committing?
    ensures AtRest(p)
  {
  }

  datatype CommitResult = Applied | Undone(open: bool) | Broken

  /** A record asked to stop. */
  function Requested(f: Flow, failed: bool, invalidate: bool): Flow {
    f.(status := Stopping, invalidate := f.invalidate || invalidate, requiresFull := f.requiresFull || invalidate,
       target := if failed then Failed else f.target, cleanupStarted := true)
  }

  lemma RequestedInStep(f: Flow, p: Project, failed: bool, invalidate: bool)
    requires InStep(f, p) && !Terminal(f.status)
    ensures InStep(Requested(f, failed, invalidate), p) && Forward(f, Requested(f, failed, invalidate))
  {
  }

  lemma RequestedMeans(f: Flow, failed: bool, invalidate: bool)
    ensures var g := Requested(f, failed, invalidate);
      && g.project == f.project && g.op == f.op && g.status == Stopping && g.target == (if failed then Failed else f.target)
      && g.invalidate == (f.invalidate || invalidate) && g.requiresFull == (f.requiresFull || invalidate) && g.cleanupStarted
  {
  }

  /** A marker file is visible once it is renamed, and on stable storage once the directory is synced,
      or by chance before. */
  lemma WrittenMeans(p: Project, m: Marker, w: Write)
    ensures var q := Written(p, m, w);
      && q.visible == (if w == NotWritten then p.visible else m) && q.durable == (if w == Synced || w == Unsynced(true) then m else p.durable)
      && q.settled == p.settled && q.changing == p.changing && q.live == p.live
  {
  }

  /** The clean marker is written only after the tree is synced. */
  lemma MarkedMeans(p: Project, treeSynced: bool, w: Write)
    ensures var q := MarkedClean(p, treeSynced, w);
      && q.settled == p.settled && q.changing == p.changing && q.live == p.live
      && if !treeSynced then q == p
         else q.durableSettled == p.settled && q.visible == (if w == NotWritten then p.visible else Clean)
              && q.durable == (if w == Synced || w == Unsynced(true) then Clean else p.durable)
  {
  }

  lemma MarkingInStep(f: Flow, p: Project, readable: bool)
    requires InStep(f, p) && f.op == Idle && f.transfers == 0 && f.status == Preparing
    ensures InStep(f.(op := CommitMarking(readable && p.visible == Clean)), p)
  {
  }

  lemma ForCommitInStep(f: Flow, p: Project, w: Write)
    requires InStep(f, p) && f.op.CommitMarking? && !Terminal(f.status)
    ensures var q := Written(p, Dirty, w);
      && (w == Synced ==> InStep(f.(op := Committing(f.op.wasClean, q.settled)), Disturbed(q).(changing := true)))
      && (w != Synced ==> InStep(Requested(f.(op := Idle), true, true), q) && Forward(f, Requested(f.(op := Idle), true, true)))
    ensures !p.changing && !Disturbed(Written(p, Dirty, w)).settled && !Disturbed(Written(p, Dirty, w)).durableSettled
  {
    var q := Written(p, Dirty, w);
    if w != Synced {
      assert InStep(f.(op := Idle), q);
      hide InStep, Written;
      RequestedInStep(f.(op := Idle), q, true, true);
    }
  }

  lemma ForStartInStep(f: Flow, p: Project, w: Write)
    requires InStep(f, p) && f.op.StartMarking? && !Terminal(f.status)
    ensures var q := Written(p, Dirty, w);
      && (w != Synced ==> InStep(Requested(f.(op := Idle), true, true), q) && Forward(f, Requested(f.(op := Idle), true, true)))
      && (w == Synced ==> InStep(f.(op := if f.status == Preparing then Spawning else Idle), q))
  {
    var q := Written(p, Dirty, w);
    if w != Synced {
      assert InStep(f.(op := Idle), q);
      hide InStep, Written;
      RequestedInStep(f.(op := Idle), q, true, true);
    }
  }

  lemma ForCleanupInStep(f: Flow, p: Project, w: Write)
    requires InStep(f, p) && f.op == CleanMark && !Terminal(f.status)
    ensures InStep(f.(op := if w == Synced then CleanRead(true) else CleanWait), Written(p, Dirty, w))
  {
  }

  /** What `commit` makes of the record when the commit engine has answered. */
  function AfterCommit(f: Flow, result: CommitResult): Flow
    requires f.op.Committing?
  {
    match result
    case Applied => f.(op := Idle, plan := None, requiresFull := false, baselineClean := true)
    case Undone(open) =>
      if (open && f.op.wasClean) || (!open && f.baselineClean) then f.(op := CommitRemarking(open))
      else if open then f.(op := Idle)
      else Requested(f.(op := Idle), true, false)
    case Broken => Requested(f.(op := Idle, broken := true), true, true)
  }

  /** What the commit engine leaves: the client's tree, the tree from before, or neither. */
  function TreeAfter(p: Project, op: Op, result: CommitResult): Project
    requires op.Committing?
  {
    match result
    case Applied => p.(changing := false, settled := true)
    case Undone(_) => p.(changing := false, settled := op.settledBefore)
    case Broken => p.(changing := false)
  }

  lemma CommitInStep(f: Flow, p: Project, result: CommitResult)
    requires InStep(f, p) && f.op.Committing? && !Terminal(f.status)
    ensures var g, q := AfterCommit(f, result), TreeAfter(p, f.op, result);
            InStep(g, q) && Forward(f, g) && !Terminal(g.status) && (g.op.CommitRemarking? ==> q.settled)
  {
    hide InStep, Safe, AfterCommit, TreeAfter;
    match result {
      case Applied => AppliedInStep(f, p);
      case Undone(open) => UndoneInStep(f, p, open);
      case Broken => BrokenInStep(f, p);
    }
  }

  lemma AppliedInStep(f: Flow, p: Project)
    requires InStep(f, p) && f.op.Committing? && !Terminal(f.status)
    ensures var g, q := AfterCommit(f, Applied), TreeAfter(p, f.op, Applied); InStep(g, q) && Forward(f, g) && g.op == Idle && g.status == f.status
  {
  }

  lemma UndoneInStep(f: Flow, p: Project, open: bool)
    requires InStep(f, p) && f.op.Committing? && !Terminal(f.status)
    ensures var g, q := AfterCommit(f, Undone(open)), TreeAfter(p, f.op, Undone(open));
            InStep(g, q) && Forward(f, g) && !Terminal(g.status) && (g.op.CommitRemarking? ==> q.settled)
  {
    if (open && f.op.wasClean) || (!open && f.baselineClean) {
      UndoneRemarks(f, p, open);
    }
  }

  lemma UndoneRemarks(f: Flow, p: Project, open: bool)
    requires InStep(f, p) && f.op.Committing? && !Terminal(f.status) && ((open && f.op.wasClean) || (!open && f.baselineClean))
    ensures var q := TreeAfter(p, f.op, Undone(open)); q.settled && InStep(f.(op := CommitRemarking(open)), q)
  {
  }

  lemma BrokenInStep(f: Flow, p: Project)
    requires InStep(f, p) && f.op.Committing? && !Terminal(f.status)
    ensures var g, q := AfterCommit(f, Broken), TreeAfter(p, f.op, Broken); InStep(g, q) && Forward(f, g) && g.op == Idle && g.status == Stopping
  {
  }

  /** What the answer of the commit engine makes of the record and of the tree. */
  lemma CommitMeans(f: Flow, p: Project, result: CommitResult)
    requires f.op.Committing?
    ensures var g, q := AfterCommit(f, result), TreeAfter(p, f.op, result);
      && g.project == f.project && !q.changing && q.visible == p.visible && q.durable == p.durable
      && (result == Applied ==> q.settled && !g.requiresFull && g.baselineClean && g.op == Idle && g.status == f.status)
      && (result.Undone? ==> q.settled == f.op.settledBefore)
      && (result == Undone(true) && !f.op.wasClean ==> g.op == Idle && g.status == f.status)
      && (result == Undone(false) && !f.baselineClean ==> g.status == Stopping && g.target == Failed)
      && (result == Broken ==> g.status == Stopping && g.target == Failed && g.invalidate && g.op == Idle && q.settled == p.settled)
      && (result == Applied ==> g.plan == None)
  {
    hide *;
    match result {
      case Applied => AppliedMeans(f, p);
      case Undone(open) => UndoneMeans(f, p, open);
      case Broken => BrokenMeans(f, p);
    }
  }

  lemma AppliedMeans(f: Flow, p: Project)
    requires f.op.Committing?
    ensures var g, q := AfterCommit(f, Applied), TreeAfter(p, f.op, Applied);
      && g.project == f.project && !q.changing && q.visible == p.visible && q.durable == p.durable
      && q.settled && !g.requiresFull && g.baselineClean && g.op == Idle && g.status == f.status && g.plan == None
  {
  }

  lemma UndoneMeans(f: Flow, p: Project, open: bool)
    requires f.op.Committing?
    ensures var g, q := AfterCommit(f, Undone(open)), TreeAfter(p, f.op, Undone(open));
      && g.project == f.project && !q.changing && q.visible == p.visible && q.durable == p.durable && q.settled == f.op.settledBefore
      && (open && !f.op.wasClean ==> g.op == Idle && g.status == f.status)
      && (!open && !f.baselineClean ==> g.status == Stopping && g.target == Failed)
  {
    RequestedMeans(f.(op := Idle), true, false);
    hide Requested;
  }

  lemma BrokenMeans(f: Flow, p: Project)
    requires f.op.Committing?
    ensures var g, q := AfterCommit(f, Broken), TreeAfter(p, f.op, Broken);
      && g.project == f.project && !q.changing && q.visible == p.visible && q.durable == p.durable && q.settled == p.settled
      && g.status == Stopping && g.target == Failed && g.invalidate && g.op == Idle
  {
    RequestedMeans(f.(op := Idle, broken := true), true, true);
    hide Requested;
  }

  /** A record just created. */
  function NewFlow(project: nat, reset: bool): Flow {
    Flow(project, reset, Preparing, true, false, false, false, Cancelled, None, None, false, false, false, 0, Init, Absent)
  }

  /** A record that ends with `status`. */
  function Finished(f: Flow, status: Status, requiresFull: bool, marker: Marker): Flow {
    f.(status := status, requiresFull := requiresFull, plan := None, op := Idle, markerAtEnd := marker)
  }

  /** The process was started, or could not be and may have left something behind. */
  function AfterSpawn(f: Flow, spawned: bool, stray: bool): Flow {
    if spawned then
      f.(op := Idle, started := true, session := Some(Live), status := if f.status == Stopping then Stopping else Running)
    else Requested(f.(op := Idle, started := true, stray := stray), true, true)
  }

  /** A process that runs, or may, can change the tree; after a failed start too nobody vouches
      for what the tree is like. */
  function TreeAfterSpawn(p: Project, live: bool): Project {
    Disturbed(p).(live := live)
  }

  lemma SpawnInStep(f: Flow, p: Project, spawned: bool, stray: bool)
    requires InStep(f, p) && f.op == Spawning && !Terminal(f.status)
    ensures var g, q := AfterSpawn(f, spawned, stray), TreeAfterSpawn(p, spawned || stray);
            && InStep(g, q) && Forward(f, g) && !Terminal(g.status) && g.project == f.project
            && (q.live ==> q.visible == Dirty && q.durable == Dirty)
            && (if spawned then g.session == Some(Live) && (f.status != Stopping ==> g.status == Running)
                else g.status == Stopping && g.invalidate)
  {
  }

  lemma ExitInStep(f: Flow, p: Project, treeSynced: bool, w: Write)
    requires InStep(f, p) && f.op == ObserveMarking && !Terminal(f.status)
    ensures var marked := treeSynced && w == Synced;
            var g, q := AfterExit(f, marked), MarkedClean(p, treeSynced, w);
            && InStep(g, q) && Forward(f, g) && !Terminal(g.status) && g.project == f.project
            && (g.status == Pulling <==> marked && f.status == Running)
            && (g.status == Pulling ==> q.visible == Clean && !g.requiresFull)
  {
  }

  /** A commit that changed nothing is over; a plan that is still open can be tried again. */
  function AfterRemark(f: Flow, marked: bool): Flow
    requires f.op.CommitRemarking?
  {
    if marked && f.op.stillOpen then f.(op := Idle) else Requested(f.(op := Idle), true, !marked)
  }

  lemma RemarkInStep(f: Flow, p: Project, treeSynced: bool, w: Write)
    requires InStep(f, p) && f.op.CommitRemarking? && !Terminal(f.status)
    ensures var marked := treeSynced && w == Synced;
            var g, q := AfterRemark(f, marked), MarkedClean(p, treeSynced, w);
            && InStep(g, q) && Forward(f, g) && !Terminal(g.status) && g.project == f.project
            && (if marked then q.visible == Clean && g.invalidate == f.invalidate else g.invalidate)
  {
  }

  /** The session ended with status zero and the clean marker was published, or not. */
  function AfterExit(f: Flow, marked: bool): Flow {
    if !marked then Requested(f.(op := Idle), true, true)
    else if f.status == Running then f.(op := Idle, status := Pulling, requiresFull := false)
    else f.(op := Idle)
  }

  lemma ExitMeans(f: Flow, marked: bool)
    ensures var g := AfterExit(f, marked);
      g.project == f.project && g.op == Idle && (!marked ==> g.status == Stopping && g.target == Failed && g.invalidate && g.requiresFull)
  {
    RequestedMeans(f.(op := Idle), true, true);
    hide Requested;
  }

  lemma RemarkMeans(f: Flow, marked: bool)
    requires f.op.CommitRemarking?
    ensures var g := AfterRemark(f, marked);
      && g.project == f.project && g.op == Idle
      && (!marked ==> g.status == Stopping && g.target == Failed && g.invalidate && g.requiresFull)
      && (marked ==> g.status == if f.op.stillOpen then f.status else Stopping)
  {
    RequestedMeans(f.(op := Idle), true, !marked);
    hide Requested;
  }

  class WorkflowManager {
    var active: Option<nat>
    var stopping: bool
    var flows: map<nat, Flow>
    var projects: map<nat, Project>

    ghost predicate Valid() reads this {
      Sound(active, flows, projects)
    }

    /** The active workflow. */
    predicate Working(id: nat) reads this {
      active == Some(id) && id in flows
    }

    predicate On(id: nat) reads this {
      Working(id) && flows[id].project in projects
    }

    function Of(id: nat): Project
      requires id in flows && flows[id].project in projects
      reads this
    {
      projects[flows[id].project]
    }

    constructor (projects: map<nat, Project>)
      requires forall q :: q in projects ==> Unharmed(projects[q])
      ensures Valid() && active == None && flows == map[] && this.projects == projects
    {
      active, stopping, flows := None, false, map[];
      this.projects := projects;
    }

    lemma ActiveInStep(id: nat)
      requires Valid() && On(id)
      ensures InStep(flows[id], Of(id)) && !Terminal(flows[id].status)
    {
    }

    /** Only the record `id` and its project changed, to these. */
    twostate predicate Became(id: nat, f: Flow, p: Project) reads this {
      active == old(active) && flows == old(flows)[id := f] && projects == old(projects)[f.project := p]
    }

    /** The workflow is to end as failed, with its project invalidated. */
    ghost predicate FailedFully(id: nat)
      requires id in flows
      reads this
    {
      flows[id].status == Stopping && flows[id].target == Failed && flows[id].invalidate && flows[id].requiresFull
    }

    /** How a marker file is replaced: it is visible once it is renamed, and on stable storage once the
        directory is synced, or by chance before. */
    twostate predicate MarkerWritten(id: nat, m: Marker, w: Write)
      requires old(On(id)) && On(id)
      reads this
    {
      && Of(id).visible == (if w == NotWritten then old(Of(id)).visible else m)
      && Of(id).durable == (if w == Synced || w == Unsynced(true) then m else old(Of(id)).durable)
    }

    /** Store the new state of the active workflow and its project. */
    method Store(id: nat, f: Flow, p: Project)
      requires Valid() && On(id)
      requires Forward(flows[id], f) && !Terminal(f.status) && InStep(f, p)
      modifies this`flows, this`projects
      ensures Valid() && On(id) && Moved(old(flows), flows, id) && projects.Keys == old(projects).Keys
      ensures Became(id, f, p)
    {
      hide Sound, InStep;
      StepSound(active, flows, projects, id, f, p);
      flows := flows[id := f];
      projects := projects[f.project := p];
    }

    // -------------------------------------------------------------- admission

    /** `create`, first part: claim the only slot. */
    method Create(id: nat, project: nat, reset: bool) returns (claimed: bool)
      requires Valid() && project in projects
      modifies this`active, this`flows
      ensures Valid() && Moved(old(flows), flows, id)
      ensures claimed <==> !stopping && id !in old(flows) && old(active) == None
      ensures !claimed ==> flows == old(flows) && active == old(active)
      ensures claimed ==> active == Some(id) && flows == old(flows)[id := NewFlow(project, reset)]
      ensures claimed ==>
        flows[id].project == project && flows[id].status == Preparing && flows[id].requiresFull && flows[id].transfers == 0 && !flows[id].started
    {
      claimed := !stopping && id !in flows && active == None;
      if !claimed { return; }
      active := Some(id);
      flows := flows[id := NewFlow(project, reset)];
    }

    /** `create`, second part: look at the project and the marker. A project is reused only when
        its marker is clean. */
    method Initialize(id: nat, found: bool, readable: bool) returns (accepted: bool)
      requires Valid() && On(id) && flows[id].op == Init
      modifies this`active, this`flows, this`projects
      ensures Valid() && Moved(old(flows), flows, id) && projects == old(projects)
      ensures accepted <==> found && ((readable && old(Of(id)).visible == Clean) || old(flows)[id].reset)
      ensures accepted ==> var clean := readable && old(Of(id)).visible == Clean;
        On(id) && flows == old(flows)[id := old(flows)[id].(baselineClean := clean, requiresFull := old(flows)[id].reset || !clean, op := Idle)]
      ensures accepted && !flows[id].reset ==> Of(id).settled && AtRest(Of(id))
      ensures !accepted ==> active == None && flows == old(flows)[id := Finished(old(flows)[id], Failed, true, old(Of(id)).visible)]
      ensures !accepted ==> flows[id].status == Failed && flows[id].requiresFull
    {
      var f, p := flows[id], Of(id);
      var clean := readable && p.visible == Clean;
      accepted := found && (clean || f.reset);
      if accepted {
        Store(id, f.(baselineClean := clean, requiresFull := f.reset || !clean, op := Idle), p);
      } else {
        OverAtRest(f, p);
        var _ := End(id, Failed, true);
      }
    }

    /** `terminal`, under the activity lock. */
    method End(id: nat, status: Status, requiresFull: bool) returns (done: bool)
      requires Valid() && On(id) && Terminal(status) && flows[id].transfers == 0 && AtRest(Of(id))
      requires !requiresFull ==> (status == Completed && flows[id].status == Pulling) || Of(id).visible == Clean
      modifies this`flows, this`active
      ensures Valid() && Moved(old(flows), flows, id)
      ensures done <==> (status == Completed ==> old(flows)[id].status == Pulling) && (old(flows)[id].invalidate ==> requiresFull)
      ensures done ==> active == None && flows == old(flows)[id := Finished(old(flows)[id], status, requiresFull, old(Of(id)).visible)]
      ensures !done ==> flows == old(flows) && active == old(active)
      ensures done ==> flows[id].status == status && flows[id].requiresFull == requiresFull && flows[id].op == Idle && flows[id].plan == None
    {
      var f := flows[id];
      if status == Completed && f.status != Pulling { return false; }
      if f.invalidate && !requiresFull { return false; }
      PullingIsClean(f, Of(id));
      hide Sound, InStep;
      f := Finished(f, status, requiresFull, Of(id).visible);
      EndSound(active, flows, projects, id, f);
      flows := flows[id := f];
      active := None;
      done := true;
    }

    // -------------------------------------------------------------- cleanup requests

    /** `request_cleanup_locked`: cancel, a failed operation, a stopped session, an expired
        heartbeat or a shutdown. Only the active workflow can be asked. */
    method RequestCleanup(id: nat, failed: bool, invalidate: bool)
      requires Valid()
      modifies this`flows, this`projects
      ensures Valid() && Moved(old(flows), flows, id) && projects == old(projects)
      ensures old(On(id)) ==> flows == old(flows)[id := Requested(old(flows)[id], failed, invalidate)]
      ensures !old(On(id)) ==> flows == old(flows)
      ensures old(On(id)) ==> flows[id].status == Stopping && flows[id].invalidate == (old(flows)[id].invalidate || invalidate)
      ensures old(On(id)) ==> flows[id].target == (if failed then Failed else old(flows)[id].target) && flows[id].cleanupStarted
    {
      if !On(id) { return; }
      RequestedInStep(flows[id], Of(id), failed, invalidate);
      Store(id, Requested(flows[id], failed, invalidate), Of(id));
    }

    method Shutdown()
      requires Valid()
      modifies this`flows, this`projects, this`stopping
      ensures Valid() && stopping && projects == old(projects) && active == old(active)
      ensures active.None? ==> flows == old(flows)
      ensures active.Some? ==> Moved(old(flows), flows, active.value)
                               && flows == old(flows)[active.value := Requested(old(flows)[active.value], false, false)]
    {
      stopping := true;
      if active.Some? { RequestCleanup(active.value, false, false); }
    }

    // -------------------------------------------------------------- transfers

    /** `lease`: a transfer shares the activity lock and is counted. */
    method Lease(id: nat, allowed: set<Status>) returns (granted: bool)
      requires Valid() && Stopping !in allowed
      modifies this`flows, this`projects
      ensures Valid() && Moved(old(flows), flows, id) && projects == old(projects)
      ensures granted <==> old(On(id) && flows[id].op == Idle && flows[id].status in allowed && !stopping)
      ensures granted ==> flows == old(flows)[id := old(flows)[id].(transfers := old(flows)[id].transfers + 1)]
      ensures !granted ==> flows == old(flows)
    {
      granted := On(id) && flows[id].op == Idle && flows[id].status in allowed && !stopping;
      if granted { Store(id, flows[id].(transfers := flows[id].transfers + 1), Of(id)); }
    }

    /** Dropping a lease. */
    method Release(id: nat)
      requires Valid() && On(id) && flows[id].transfers > 0
      modifies this`flows, this`projects
      ensures Valid() && Moved(old(flows), flows, id) && projects == old(projects)
      ensures flows == old(flows)[id := old(flows)[id].(transfers := old(flows)[id].transfers - 1)]
    {
      ActiveInStep(id);
      hide Sound;
      Store(id, flows[id].(transfers := flows[id].transfers - 1), Of(id));
    }

    /** The activity lock can be had for writing, and the operation is allowed. */
    predicate Exclusive(id: nat, status: Status) reads this {
      On(id) && flows[id].op == Idle && flows[id].transfers == 0 && flows[id].status == status
    }

    // -------------------------------------------------------------- plans and commits

    method OpenPlan(id: nat, plan: nat) returns (ok: bool)
      requires Valid()
      modifies this`flows, this`projects
      ensures Valid() && Moved(old(flows), flows, id) && projects == old(projects)
      ensures ok <==> old(Exclusive(id, Preparing) && flows[id].plan == None)
      ensures ok ==> flows == old(flows)[id := old(flows)[id].(plan := Some(plan))]
      ensures !ok ==> flows == old(flows)
    {
      ok := Exclusive(id, Preparing) && flows[id].plan == None;
      if ok { Store(id, flows[id].(plan := Some(plan)), Of(id)); }
    }

    /** Abort of the open plan, or its expiry. */
    method ClosePlan(id: nat)
      requires Valid() && Exclusive(id, Preparing)
      modifies this`flows, this`projects
      ensures Valid() && Moved(old(flows), flows, id) && Became(id, old(flows)[id].(plan := None), old(Of(id)))
    {
      Store(id, flows[id].(plan := None), Of(id));
    }

    /** `commit` of the open plan: note whether the marker is clean. One that cannot be read is not. */
    method BeginCommit(id: nat, plan: nat, readable: bool) returns (ok: bool)
      requires Valid()
      modifies this`flows, this`projects
      ensures Valid() && Moved(old(flows), flows, id) && projects == old(projects)
      ensures ok <==> old(Exclusive(id, Preparing) && flows[id].plan == Some(plan))
      ensures ok ==> On(id) && flows[id].op.CommitMarking? && (flows[id].op.wasClean <==> readable && old(Of(id)).visible == Clean)
      ensures ok ==> Became(id, old(flows)[id].(op := flows[id].op), old(Of(id)))
      ensures !ok ==> flows == old(flows)
    {
      ok := Exclusive(id, Preparing) && flows[id].plan == Some(plan);
      if !ok { return; }
      MarkingInStep(flows[id], Of(id), readable);
      hide Sound, InStep, Moved;
      Store(id, flows[id].(op := CommitMarking(readable && Of(id).visible == Clean)), Of(id));
    }

    /** Mark the project dirty before anything of it changes. Without a durable dirty marker
        there is no commit. */
    method MarkForCommit(id: nat, w: Write)
      requires Valid() && On(id) && flows[id].op.CommitMarking?
      modifies this`flows, this`projects
      ensures Valid() && On(id) && Moved(old(flows), flows, id) && projects.Keys == old(projects).Keys
      ensures MarkerWritten(id, Dirty, w)
      ensures Of(id).changing <==> w == Synced
      ensures Of(id).changing ==> Of(id).visible == Dirty && Of(id).durable == Dirty
      ensures w == Synced ==>
        Became(id, old(flows)[id].(op := Committing(old(flows)[id].op.wasClean, old(Of(id)).settled)),
               Disturbed(Written(old(Of(id)), Dirty, w)).(changing := true))
      ensures w != Synced ==> Became(id, Requested(old(flows)[id].(op := Idle), true, true), Written(old(Of(id)), Dirty, w))
      ensures w != Synced ==> flows[id].op == Idle && FailedFully(id) && Of(id).settled == old(Of(id)).settled
      ensures w == Synced ==> !Of(id).settled && !Of(id).durableSettled && flows[id].status == old(flows)[id].status
    {
      ActiveInStep(id);
      var f, p := flows[id], Written(Of(id), Dirty, w);
      ForCommitInStep(f, Of(id), w);
      WrittenMeans(Of(id), Dirty, w);
      RequestedMeans(f.(op := Idle), true, true);
      hide Sound, InStep, Written, Disturbed, Requested, Moved;
      if w == Synced {
        Store(id, f.(op := Committing(f.op.wasClean, p.settled)), Disturbed(p).(changing := true));
      } else {
        Store(id, Requested(f.(op := Idle), true, true), p);
      }
    }

    /** The commit engine answers. Applied: the tree is the client's. Undone: it is what it was
        before, the plan perhaps still open for missing uploads. Broken: a rollback failed. */
    method EndCommit(id: nat, result: CommitResult)
      requires Valid() && On(id) && flows[id].op.Committing?
      modifies this`flows, this`projects
      ensures Valid() && On(id) && Moved(old(flows), flows, id) && projects.Keys == old(projects).Keys && !Of(id).changing
      ensures Became(id, AfterCommit(old(flows)[id], result), TreeAfter(old(Of(id)), old(flows)[id].op, result))
      ensures result == Applied ==> Of(id).settled && !flows[id].requiresFull && flows[id].baselineClean
      ensures result.Undone? ==> Of(id).settled == old(flows)[id].op.settledBefore
      ensures result == Broken ==> flows[id].status == Stopping && flows[id].invalidate
      ensures flows[id].op.CommitRemarking? ==> Of(id).settled
      ensures Of(id).visible == old(Of(id)).visible && Of(id).durable == old(Of(id)).durable
      ensures (result == Broken ==> Of(id).settled == old(Of(id)).settled) && (result == Applied ==> flows[id].plan == None)
      ensures result == Broken || (result == Undone(false) && !old(flows)[id].baselineClean) ==>
        flows[id].status == Stopping && flows[id].target == Failed
      ensures result == Applied || (result == Undone(true) && !old(flows)[id].op.wasClean) ==>
        flows[id].op == Idle && flows[id].status == old(flows)[id].status
    {
      ActiveInStep(id);
      hide Sound, InStep, AfterCommit, TreeAfter, Safe, Requested;
      var f, p := flows[id], Of(id);
      CommitInStep(f, p, result);
      CommitMeans(f, p, result);
      Store(id, AfterCommit(f, result), TreeAfter(p, f.op, result));
    }

    /** Trust the project again after a commit that changed nothing. */
    method MarkAfterCommit(id: nat, treeSynced: bool, w: Write)
      requires Valid() && On(id) && flows[id].op.CommitRemarking?
      modifies this`flows, this`projects
      ensures Valid() && On(id) && Moved(old(flows), flows, id) && projects.Keys == old(projects).Keys
      ensures treeSynced && w == Synced ==> Of(id).visible == Clean && flows[id].invalidate == old(flows)[id].invalidate
      ensures !treeSynced || w != Synced ==> flows[id].invalidate
      ensures Became(id, AfterRemark(old(flows)[id], treeSynced && w == Synced), MarkedClean(old(Of(id)), treeSynced, w))
      ensures !treeSynced ==> Of(id) == old(Of(id))
      ensures treeSynced ==> MarkerWritten(id, Clean, w) && Of(id).durableSettled == old(Of(id)).settled
      ensures flows[id].op == Idle && (!treeSynced || w != Synced ==> FailedFully(id))
      ensures treeSynced && w == Synced ==> (flows[id].status == Stopping <==> !old(flows)[id].op.stillOpen || old(flows)[id].status == Stopping)
    {
      ActiveInStep(id);
      RemarkInStep(flows[id], Of(id), treeSynced, w);
      RemarkMeans(flows[id], treeSynced && w == Synced);
      MarkedMeans(Of(id), treeSynced, w);
      hide Sound, InStep, Forward, AfterRemark, MarkedClean, Moved;
      Store(id, AfterRemark(flows[id], treeSynced && w == Synced), MarkedClean(Of(id), treeSynced, w));
    }

    // -------------------------------------------------------------- the session

    method BeginStart(id: nat) returns (ok: bool)
      requires Valid()
      modifies this`flows, this`projects
      ensures Valid() && Moved(old(flows), flows, id) && projects == old(projects)
      ensures ok <==> old(Exclusive(id, Preparing) && !flows[id].requiresFull && flows[id].plan == None)
      ensures ok ==> On(id) && Became(id, old(flows)[id].(op := StartMarking), old(Of(id)))
      ensures !ok ==> flows == old(flows)
    {
      ok := Exclusive(id, Preparing) && !flows[id].requiresFull && flows[id].plan == None;
      if ok { Store(id, flows[id].(op := StartMarking), Of(id)); }
    }

    /** Mark the project dirty before the session process can touch it. */
    method MarkForStart(id: nat, w: Write)
      requires Valid() && On(id) && flows[id].op.StartMarking?
      modifies this`flows, this`projects
      ensures Valid() && On(id) && Moved(old(flows), flows, id) && projects.Keys == old(projects).Keys
      ensures MarkerWritten(id, Dirty, w)
      ensures flows[id].op == Spawning <==> w == Synced && old(flows)[id].status == Preparing
      ensures flows[id].op == Spawning ==> Of(id).visible == Dirty && Of(id).durable == Dirty
      ensures Became(id, if w != Synced then Requested(old(flows)[id].(op := Idle), true, true)
                         else old(flows)[id].(op := if old(flows)[id].status == Preparing then Spawning else Idle), Written(old(Of(id)), Dirty, w))
      ensures w != Synced ==> flows[id].op == Idle && FailedFully(id)
    {
      ActiveInStep(id);
      var f, p := flows[id], Written(Of(id), Dirty, w);
      ForStartInStep(f, Of(id), w);
      WrittenMeans(Of(id), Dirty, w);
      RequestedMeans(f.(op := Idle), true, true);
      hide Sound, InStep, Written, Requested, Moved;
      if w != Synced {
        Store(id, Requested(f.(op := Idle), true, true), p);
      } else if f.status == Preparing {
        Store(id, f.(op := Spawning), p);
      } else {
        Store(id, f.(op := Idle), p);
      }
    }

    /** The process is started, or could not be (and may still have to be cleaned up). */
    method Spawn(id: nat, spawned: bool, stray: bool)
      requires Valid() && On(id) && flows[id].op == Spawning
      modifies this`flows, this`projects
      ensures Valid() && On(id) && Moved(old(flows), flows, id) && projects.Keys == old(projects).Keys
      ensures spawned ==> flows[id].session == Some(Live) && (old(flows)[id].status != Stopping ==> flows[id].status == Running)
      ensures !spawned ==> flows[id].status == Stopping && flows[id].invalidate
      ensures Of(id).live ==> Of(id).visible == Dirty && Of(id).durable == Dirty
      ensures Became(id, AfterSpawn(old(flows)[id], spawned, stray), TreeAfterSpawn(old(Of(id)), spawned || stray))
      ensures Of(id).live == (spawned || stray) && !Of(id).settled && !Of(id).durableSettled && flows[id].started && flows[id].op == Idle
      ensures !spawned ==> FailedFully(id) && flows[id].stray == stray
    {
      ActiveInStep(id);
      hide Sound;
      SpawnInStep(flows[id], Of(id), spawned, stray);
      hide InStep, AfterSpawn, TreeAfterSpawn, Forward;
      Store(id, AfterSpawn(flows[id], spawned, stray), TreeAfterSpawn(Of(id), spawned || stray));
    }

    /** The session is over and its process group is confirmed gone. Only exit status zero of
        the process itself leaves a tree to trust. */
    method SessionEnds(id: nat, exitZero: bool)
      requires Valid() && On(id) && flows[id].session == Some(Live)
      modifies this`flows, this`projects
      ensures Valid() && On(id) && Moved(old(flows), flows, id) && projects.Keys == old(projects).Keys
      ensures Became(id, old(flows)[id].(session := Some(Gone(exitZero))), old(Of(id)).(live := false, settled := exitZero))
    {
      ActiveInStep(id);
      hide Sound;
      SessionDirty(flows[id], Of(id));
      Store(id, flows[id].(session := Some(Gone(exitZero))), Of(id).(live := false, settled := exitZero));
    }

    /** The remains of a failed start are confirmed gone. */
    method StrayEnds(id: nat)
      requires Valid() && On(id) && flows[id].stray && flows[id].session == None
      modifies this`flows, this`projects
      ensures Valid() && On(id) && Moved(old(flows), flows, id) && projects.Keys == old(projects).Keys
      ensures Became(id, old(flows)[id].(stray := false), old(Of(id)).(live := false))
    {
      ActiveInStep(id);
      hide Sound;
      Store(id, flows[id].(stray := false), Of(id).(live := false));
    }

    /** `observe_session`: the task that watches the session takes the activity lock. */
    method BeginObserve(id: nat) returns (ok: bool)
      requires Valid()
      modifies this`flows, this`projects
      ensures Valid() && Moved(old(flows), flows, id) && projects == old(projects)
      ensures ok <==> old(Exclusive(id, Running) && flows[id].session.value.Gone?)
      ensures ok ==> On(id) && Became(id, if old(flows)[id].session == Some(Gone(true)) then old(flows)[id].(op := ObserveMarking)
                                          else Requested(old(flows)[id], true, true), old(Of(id)))
      ensures !ok ==> flows == old(flows)
    {
      if Exclusive(id, Running) { RunningHasSession(flows[id], Of(id)); }
      ok := Exclusive(id, Running) && flows[id].session.value.Gone?;
      if !ok { return; }
      ObservingInStep(flows[id], Of(id));
      RequestedInStep(flows[id], Of(id), true, true);
      RequestedMeans(flows[id], true, true);
      hide Sound, InStep, Requested, Moved;
      if flows[id].session == Some(Gone(true)) {
        Store(id, flows[id].(op := ObserveMarking), Of(id));
      } else {
        Store(id, Requested(flows[id], true, true), Of(id));
      }
    }

    method MarkAfterExit(id: nat, treeSynced: bool, w: Write)
      requires Valid() && On(id) && flows[id].op == ObserveMarking
      modifies this`flows, this`projects
      ensures Valid() && On(id) && Moved(old(flows), flows, id) && projects.Keys == old(projects).Keys
      ensures flows[id].status == Pulling <==> treeSynced && w == Synced && old(flows)[id].status == Running
      ensures flows[id].status == Pulling ==> Of(id).visible == Clean && !flows[id].requiresFull
      ensures Became(id, AfterExit(old(flows)[id], treeSynced && w == Synced), MarkedClean(old(Of(id)), treeSynced, w))
      ensures !treeSynced ==> Of(id) == old(Of(id))
      ensures treeSynced ==> MarkerWritten(id, Clean, w) && Of(id).durableSettled == old(Of(id)).settled
      ensures flows[id].op == Idle && (!treeSynced || w != Synced ==> FailedFully(id))
    {
      ActiveInStep(id);
      ExitInStep(flows[id], Of(id), treeSynced, w);
      ExitMeans(flows[id], treeSynced && w == Synced);
      MarkedMeans(Of(id), treeSynced, w);
      hide Sound, InStep, Forward, AfterExit, MarkedClean, Moved;
      Store(id, AfterExit(flows[id], treeSynced && w == Synced), MarkedClean(Of(id), treeSynced, w));
    }

    // -------------------------------------------------------------- the end

    /** `finish`: not while a transfer holds the activity lock. */
    method Finish(id: nat, plansAborted: bool) returns (done: bool)
      requires Valid()
      modifies this`flows, this`active
      ensures Valid() && Moved(old(flows), flows, id)
      ensures done <==> old(Exclusive(id, Pulling) && !flows[id].invalidate) && plansAborted
      ensures done ==> active == None && flows == old(flows)[id := Finished(old(flows)[id], Completed, false, Clean)]
      ensures !done ==> flows == old(flows)
      ensures done ==> flows[id].status == Completed && !flows[id].requiresFull
    {
      done := false;
      if !Exclusive(id, Pulling) || !plansAborted { return; }
      PullingIsClean(flows[id], Of(id));
      PullingAtRest(flows[id], Of(id));
      done := End(id, Completed, false);
    }

    /** The cleanup task takes the activity lock and looks at what is asked of it. */
    method BeginCleanup(id: nat)
      requires Valid() && On(id) && flows[id].cleanupStarted && flows[id].status == Stopping
      requires flows[id].transfers == 0 && flows[id].op in {Idle, CleanWait}
      modifies this`flows, this`projects
      ensures Valid() && On(id) && Moved(old(flows), flows, id) && projects == old(projects)
      ensures Became(id, old(flows)[id].(op := CleanStop(old(flows)[id].invalidate)), old(Of(id)))
    {
      ActiveInStep(id);
      hide Sound;
      Store(id, flows[id].(op := CleanStop(flows[id].invalidate)), Of(id));
    }

    /** Nothing goes on before the session, or what is left of a failed start, is gone. */
    method CleanupStop(id: nat)
      requires Valid() && On(id) && flows[id].op.CleanStop?
      modifies this`flows, this`projects
      ensures Valid() && On(id) && Moved(old(flows), flows, id) && projects == old(projects)
      ensures Became(id, old(flows)[id].(op := AfterStop(old(flows)[id])), old(Of(id)))
      ensures flows[id].op != CleanWait ==> !Of(id).live
      ensures flows[id].op == CleanWait <==> old(flows)[id].session == Some(Live) || old(flows)[id].stray
      ensures flows[id].op != CleanWait ==> flows[id].op == if old(flows)[id].op.marks then CleanMark else CleanRead(false)
    {
      ActiveInStep(id);
      hide Sound;
      CleanStopInStep(flows[id], Of(id));
      hide InStep;
      Store(id, flows[id].(op := AfterStop(flows[id])), Of(id));
    }

    method CleanupMark(id: nat, w: Write)
      requires Valid() && On(id) && flows[id].op == CleanMark
      modifies this`flows, this`projects
      ensures Valid() && On(id) && Moved(old(flows), flows, id) && projects.Keys == old(projects).Keys
      ensures MarkerWritten(id, Dirty, w)
      ensures Became(id, old(flows)[id].(op := if w == Synced then CleanRead(true) else CleanWait), Written(old(Of(id)), Dirty, w))
    {
      ActiveInStep(id);
      ForCleanupInStep(flows[id], Of(id), w);
      WrittenMeans(Of(id), Dirty, w);
      hide Sound, InStep, Written, Moved;
      Store(id, flows[id].(op := if w == Synced then CleanRead(true) else CleanWait), Written(Of(id), Dirty, w));
    }

    method CleanupRead(id: nat, plansAborted: bool, readable: bool)
      requires Valid() && On(id) && flows[id].op.CleanRead?
      modifies this`flows, this`projects
      ensures Valid() && On(id) && Moved(old(flows), flows, id) && projects == old(projects)
      ensures Became(id, old(flows)[id].(op := AfterRead(old(flows)[id], old(Of(id)), plansAborted, readable)), old(Of(id)))
      ensures flows[id].op.CleanEnd? <==> plansAborted
      ensures plansAborted ==> (flows[id].op.clean <==> readable && old(Of(id)).visible == Clean) && flows[id].op.marked == old(flows)[id].op.marked
      ensures !plansAborted ==> flows[id].op == CleanWait
    {
      ActiveInStep(id);
      hide Sound;
      CleanReadInStep(flows[id], Of(id), plansAborted, readable);
      hide InStep;
      Store(id, flows[id].(op := AfterRead(flows[id], Of(id), plansAborted, readable)), Of(id));
    }

    /** Release the project, unless a failure found meanwhile asks for a dirty marker first. */
    method CleanupEnd(id: nat) returns (done: bool)
      requires Valid() && On(id) && flows[id].op.CleanEnd?
      modifies this`flows, this`projects, this`active
      ensures Valid() && Moved(old(flows), flows, id) && projects == old(projects)
      ensures done <==> (old(flows)[id].invalidate ==> old(flows)[id].op.marked && !old(flows)[id].op.clean)
      ensures done ==>
        active == None && flows == old(flows)[id := Finished(old(flows)[id], old(flows)[id].target, !old(flows)[id].op.clean, old(Of(id)).visible)]
      ensures done && !flows[id].requiresFull ==> projects[flows[id].project].visible == Clean
      ensures !done ==> On(id) && Became(id, old(flows)[id].(op := CleanWait), old(Of(id)))
      ensures done ==> flows[id].status == old(flows)[id].target && (flows[id].requiresFull <==> !old(flows)[id].op.clean)
    {
      ActiveInStep(id);
      hide Sound;
      var f := flows[id];
      CleanEndFacts(f, Of(id));
      if !f.invalidate || f.op.marked {
        done := End(id, f.target, !f.op.clean);
        if done { return; }
      }
      done := false;
      Store(id, f.(op := CleanWait), Of(id));
    }

    /** Forget old finished records. */
    method Prune(forget: set<nat>)
      requires Valid() && forall id :: id in forget && id in flows ==> Terminal(flows[id].status)
      modifies this`flows
      ensures Valid() && flows == old(flows) - forget
    {
      flows := flows - forget;
    }

    /** The service is killed, perhaps with the power; the next one starts with what is on disk. */
    method Crash(powerLoss: bool)
      requires Valid()
      modifies this
      ensures Valid() && active == None && flows == map[] && projects.Keys == old(projects).Keys
      ensures projects == map q | q in old(projects) :: AfterCrash(old(projects)[q], powerLoss)
      ensures forall q :: q in projects ==> AtRest(projects[q]) && projects[q].durable == old(projects)[q].durable
      ensures forall q :: q in projects ==> projects[q].visible == if powerLoss then old(projects)[q].durable else old(projects)[q].visible
      ensures forall q :: q in projects ==>
        projects[q].settled == (if powerLoss then old(projects)[q].durableSettled else old(projects)[q].settled && AtRest(old(projects)[q]))
        && projects[q].durableSettled == (old(projects)[q].durableSettled && (powerLoss || AtRest(old(projects)[q])))
      ensures forall q :: q in projects && projects[q].visible == Clean ==>
                AtRest(old(projects)[q]) && projects[q].settled
                && if powerLoss then old(projects)[q].durableSettled else old(projects)[q].settled
    {
      projects := map q | q in projects :: AfterCrash(projects[q], powerLoss);
      active, flows, stopping := None, map[], false;
    }
  }

  /** What is found after a kill: without power the tree is the one on stable storage. */
  function AfterCrash(p: Project, powerLoss: bool): Project {
    if powerLoss then p.(visible := p.durable, settled := p.durableSettled, changing := false, live := false)
    else p.(settled := p.settled && AtRest(p), durableSettled := p.durableSettled && AtRest(p), changing := false, live := false)
  }

  lemma SessionDirty(f: Flow, p: Project)
    requires InStep(f, p) && f.session == Some(Live)
    ensures p.visible != Clean && p.durable != Clean
  {
  }

  lemma ObservingInStep(f: Flow, p: Project)
    requires InStep(f, p) && f.op == Idle && f.transfers == 0 && f.status == Running
    ensures f.session == Some(Gone(true)) ==> InStep(f.(op := ObserveMarking), p)
  {
  }

  lemma RunningHasSession(f: Flow, p: Project)
    requires InStep(f, p) && f.status == Running
    ensures f.session.Some?
  {
  }

  lemma PullingAtRest(f: Flow, p: Project)
    requires InStep(f, p) && f.status == Pulling
    ensures AtRest(p)
  {
  }

  function AfterStop(f: Flow): Op
    requires f.op.CleanStop?
  {
    if !SessionOver(f) then CleanWait else if f.op.marks then CleanMark else CleanRead(false)
  }

  lemma CleanStopInStep(f: Flow, p: Project)
    requires InStep(f, p) && f.op.CleanStop? && !Terminal(f.status)
    ensures var g := f.(op := AfterStop(f)); InStep(g, p) && Forward(f, g) && (g.op != CleanWait ==> !p.live)
  {
  }

  function AfterRead(f: Flow, p: Project, plansAborted: bool, readable: bool): Op
    requires f.op.CleanRead?
  {
    if plansAborted then CleanEnd(f.op.marked, readable && p.visible == Clean) else CleanWait
  }

  lemma CleanReadInStep(f: Flow, p: Project, plansAborted: bool, readable: bool)
    requires InStep(f, p) && f.op.CleanRead? && !Terminal(f.status)
    ensures var g := f.(op := AfterRead(f, p, plansAborted, readable)); InStep(g, p) && Forward(f, g)
  {
  }

  lemma CleanEndFacts(f: Flow, p: Project)
    requires InStep(f, p) && f.op.CleanEnd?
    ensures AtRest(p) && f.transfers == 0 && f.status == Stopping && (f.op.clean ==> p.visible == Clean) && Terminal(f.target)
    ensures f.target != Completed && InStep(f.(op := CleanWait), p)
  {
  }

  lemma PullingIsClean(f: Flow, p: Project)
    requires InStep(f, p)
    ensures f.status == Pulling ==> p.visible == Clean
  {
  }

  // ---------------------------------------------------------------- runs

  datatype Step =
    | Create(id: nat, project: nat, reset: bool)
    | Initialize(id: nat, found: bool, readable: bool)
    | RequestCleanup(id: nat, failed: bool, invalidate: bool)
    | Shutdown
    | Lease(id: nat, allowed: set<Status>)
    | Release(id: nat)
    | OpenPlan(id: nat, plan: nat)
    | ClosePlan(id: nat)
    | BeginCommit(id: nat, plan: nat, readable: bool)
    | MarkForCommit(id: nat, write: Write)
    | EndCommit(id: nat, result: CommitResult)
    | MarkAfterCommit(id: nat, treeSynced: bool, write: Write)
    | BeginStart(id: nat)
    | MarkForStart(id: nat, write: Write)
    | Spawn(id: nat, spawned: bool, stray: bool)
    | SessionEnds(id: nat, exitZero: bool)
    | StrayEnds(id: nat)
    | BeginObserve(id: nat)
    | MarkAfterExit(id: nat, treeSynced: bool, write: Write)
    | Finish(id: nat, plansAborted: bool)
    | BeginCleanup(id: nat)
    | CleanupStop(id: nat)
    | CleanupMark(id: nat, write: Write)
    | CleanupRead(id: nat, plansAborted: bool, readable: bool)
    | CleanupEnd(id: nat)
    | Prune(forget: set<nat>)
    | Crash(powerLoss: bool)

  /** No record went back, and only `gone` were forgotten. */
  ghost predicate Onward(before: map<nat, Flow>, after: map<nat, Flow>, gone: set<nat>) {
    forall id :: id in before && id !in gone ==> id in after && Forward(before[id], after[id])
  }

  lemma OnwardTransitive(a: map<nat, Flow>, b: map<nat, Flow>, c: map<nat, Flow>, gone: set<nat>, more: set<nat>)
    requires Onward(a, b, gone) && Onward(b, c, more)
    ensures Onward(a, c, gone + more)
  {
    forall id | id in a && id !in gone + more ensures id in c && Forward(a[id], c[id]) { ForwardTransitive(a[id], b[id], c[id]); }
  }

  lemma MovedOnward(before: map<nat, Flow>, after: map<nat, Flow>, gone: set<nat>)
    ensures before == after ==> Onward(before, after, gone)
    ensures after == before - gone ==> Onward(before, after, gone)
    ensures (exists id :: Moved(before, after, id)) ==> Onward(before, after, gone)
  {
  }

  /** The records that a step, or a run, forgets. */
  function Forgets(step: Step): set<nat> {
    if step.Prune? then step.forget else {}
  }

  function AllForgotten(steps: seq<Step>): set<nat> {
    if steps == [] then {} else AllForgotten(steps[..|steps| - 1]) + Forgets(steps[|steps| - 1])
  }

  /** Take a step, if some task can take it now. */
  method Take(m: WorkflowManager, step: Step)
    requires m.Valid()
    modifies m
    ensures m.Valid() && m.projects.Keys == old(m.projects).Keys
    ensures !step.Crash? ==> Onward(old(m.flows), m.flows, Forgets(step))
  {
    hide Sound, InStep, Moved, Onward, WorkflowManager.Became;
    match step {
      case Create(id, project, reset) => if project in m.projects { var _ := m.Create(id, project, reset); }
      case Initialize(id, found, readable) => if m.On(id) && m.flows[id].op == Init { var _ := m.Initialize(id, found, readable); }
      case RequestCleanup(id, failed, invalidate) => m.RequestCleanup(id, failed, invalidate);
      case Shutdown => m.Shutdown();
      case Lease(id, allowed) => if Stopping !in allowed { var _ := m.Lease(id, allowed); }
      case Release(id) => if m.On(id) && m.flows[id].transfers > 0 { m.Release(id); }
      case OpenPlan(id, plan) => var _ := m.OpenPlan(id, plan);
      case ClosePlan(id) => if m.Exclusive(id, Preparing) { m.ClosePlan(id); }
      case BeginCommit(id, plan, readable) => var _ := m.BeginCommit(id, plan, readable);
      case MarkForCommit(id, w) => if m.On(id) && m.flows[id].op.CommitMarking? { m.MarkForCommit(id, w); }
      case EndCommit(id, result) => if m.On(id) && m.flows[id].op.Committing? { m.EndCommit(id, result); }
      case MarkAfterCommit(id, synced, w) => if m.On(id) && m.flows[id].op.CommitRemarking? { m.MarkAfterCommit(id, synced, w); }
      case BeginStart(id) => var _ := m.BeginStart(id);
      case MarkForStart(id, w) => if m.On(id) && m.flows[id].op.StartMarking? { m.MarkForStart(id, w); }
      case _ => TakeLate(m, step);
    }
    MovedOnward(old(m.flows), m.flows, Forgets(step));
  }

  method TakeLate(m: WorkflowManager, step: Step)
    requires m.Valid()
    modifies m
    ensures m.Valid() && m.projects.Keys == old(m.projects).Keys
    ensures !step.Crash? ==> Onward(old(m.flows), m.flows, Forgets(step))
  {
    hide Sound, InStep, Moved, Onward, WorkflowManager.Became;
    match step {
      case Spawn(id, spawned, stray) => if m.On(id) && m.flows[id].op == Spawning { m.Spawn(id, spawned, stray); }
      case SessionEnds(id, exitZero) => if m.On(id) && m.flows[id].session == Some(Live) { m.SessionEnds(id, exitZero); }
      case StrayEnds(id) => if m.On(id) && m.flows[id].stray && m.flows[id].session == None { m.StrayEnds(id); }
      case BeginObserve(id) => var _ := m.BeginObserve(id);
      case MarkAfterExit(id, synced, w) => if m.On(id) && m.flows[id].op == ObserveMarking { m.MarkAfterExit(id, synced, w); }
      case Finish(id, plansAborted) => var _ := m.Finish(id, plansAborted);
      case BeginCleanup(id) =>
        if m.On(id) && m.flows[id].cleanupStarted && m.flows[id].status == Stopping
           && m.flows[id].transfers == 0 && m.flows[id].op in {Idle, CleanWait} { m.BeginCleanup(id); }
      case CleanupStop(id) => if m.On(id) && m.flows[id].op.CleanStop? { m.CleanupStop(id); }
      case CleanupMark(id, w) => if m.On(id) && m.flows[id].op == CleanMark { m.CleanupMark(id, w); }
      case CleanupRead(id, plansAborted, readable) => if m.On(id) && m.flows[id].op.CleanRead? { m.CleanupRead(id, plansAborted, readable); }
      case CleanupEnd(id) => if m.On(id) && m.flows[id].op.CleanEnd? { var _ := m.CleanupEnd(id); }
      case Prune(forget) => if forall id | id in forget :: id in m.flows ==> Terminal(m.flows[id].status) { m.Prune(forget); }
      case Crash(powerLoss) => m.Crash(powerLoss);
      case _ =>
    }
    MovedOnward(old(m.flows), m.flows, Forgets(step));
  }

  /** Any interleaving of steps within the life of one process: records only move forward, those
      that are terminal never change, and none is forgotten but by pruning terminal ones. */
  method Run(m: WorkflowManager, steps: seq<Step>)
    requires m.Valid() && forall i :: 0 <= i < |steps| ==> !steps[i].Crash?
    modifies m
    ensures m.Valid() && m.projects.Keys == old(m.projects).Keys
    ensures Onward(old(m.flows), m.flows, AllForgotten(steps))
  {
    for i := 0 to |steps|
      invariant m.Valid() && m.projects.Keys == old(m.projects).Keys && Onward(old(m.flows), m.flows, AllForgotten(steps[..i]))
    {
      ghost var before := m.flows;
      Take(m, steps[i]);
      assert steps[..i + 1][..i] == steps[..i];
      OnwardTransitive(old(m.flows), before, m.flows, AllForgotten(steps[..i]), Forgets(steps[i]));
    }
    assert steps[..|steps|] == steps;
  }

  /** Whatever the service does, and whenever it is killed, with or without the power: a project
      whose marker is clean afterwards was at rest, with a tree that can be trusted. `last` is how
      the projects were at the moment of the kill. */
  method RunAndKill(start: map<nat, Project>, steps: seq<Step>, powerLoss: bool) returns (m: WorkflowManager, last: map<nat, Project>)
    requires forall q :: q in start ==> Unharmed(start[q])
    ensures last.Keys == start.Keys && m.projects == map q | q in last :: AfterCrash(last[q], powerLoss)
    ensures forall q :: q in m.projects && m.projects[q].visible == Clean ==>
      AtRest(last[q]) && if powerLoss then last[q].durableSettled else last[q].settled
    ensures m.Valid() && m.active == None && m.flows == map[]
  {
    m := new WorkflowManager(start);
    for i := 0 to |steps|
      invariant fresh(m) && m.Valid() && m.projects.Keys == start.Keys
    {
      Take(m, steps[i]);
    }
    last := m.projects;
    m.Crash(powerLoss);
  }
}
