/** What the workflow takes from the commit engine: its answer, and which tree it left. */
module Engine {
  import opened Paths
  import opened FileTree
  import opened Transaction
  import opened Plan
  import opened Commit
  import opened Apply
  import Reset
  import Workflow

  /** The project part of a tree. */
  function ProjectOf(project: Path, t: Tree): Tree {
    map p | p in t && Under(project, p) :: t[p]
  }

  lemma SameProjectOf(project: Path, a: Tree, b: Tree)
    requires SameProject(project, a, b)
    ensures ProjectOf(project, a) == ProjectOf(project, b)
  {
    forall p | Under(project, p) ensures p in a <==> p in b
                                 ensures p in a ==> a[p] == b[p]
    {
      assert Get(a, p) == Get(b, p);
    }
  }

  /** How a workflow reads the engine's answer; `open` says that the plan is still open. */
  function AnswerOf(r: Result<Response>, open: bool): Workflow.CommitResult {
    match r
    case Ok(_) => Workflow.Applied
    case Err(ProjectReuploadRequired) => Workflow.Broken
    case Err(_) => Workflow.Undone(open)
  }

  /** The trees that can be trusted, as an arbitrary set that holds what the commit delivered:
      after a commit the record of the workflow says that its tree can be trusted only if it
      can, and after an ordinary error exactly if it could be trusted before. */
  lemma AnswerTellsTree(areas: Areas, t: Tree, u: Tree, plan: CommitPlan, r: Result<Response>, open: bool, wasClean: bool,
                        before: Workflow.Project, trusted: iset<Tree>)
    requires Committed(areas, t, u, plan, r) || Reset.ResetDone(areas, t, u, plan, r)
    requires r.Ok? ==> ProjectOf(areas.project, u) in trusted
    requires before.changing && !before.settled
    ensures var op := Workflow.Committing(wasClean, ProjectOf(areas.project, t) in trusted);
            var after := Workflow.TreeAfter(before, op, AnswerOf(r, open));
            && !after.changing
            && (AnswerOf(r, open) == Workflow.Applied <==> r.Ok?)
            && (AnswerOf(r, open) == Workflow.Broken <==> r.Err? && r.error == ProjectReuploadRequired)
            && (AnswerOf(r, open).Undone? ==> AnswerOf(r, open).open == open)
            && (after.settled ==> ProjectOf(areas.project, u) in trusted)
            && (AnswerOf(r, open) != Workflow.Broken ==> (after.settled <==> ProjectOf(areas.project, u) in trusted))
  {
    if r.Err? && r.error != ProjectReuploadRequired { SameProjectOf(areas.project, u, t); }
  }
}
