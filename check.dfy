/** The `check` command: open the existing working copy, read HEAD, pull,
    read HEAD again, and run compose pull then compose up when forced or when
    the pull moved HEAD. Every error is returned. */
module Check {
  import opened Types
  import opened Utils

  /** What the collaborators report during one check, in call order: opening
      the working copy and its worktree, HEAD before, the pull, HEAD after,
      compose pull and compose up. */
  datatype CheckScript = CheckScript(
    open: Outcome,
    worktree: Outcome,
    before: Result<CommitRef>,
    pull: PullScript,
    after: Result<CommitRef>,
    refresh: Outcome,
    reconcile: Outcome)

  /** The deployment decision: forced, or HEAD moved. */
  predicate ShouldDeploy(force: bool, before: CommitRef, after: CommitRef)
  {
    force || before != after
  }

  /** Everything up to and including the second read of HEAD succeeded. */
  predicate CheckSynced(c: Config, s: CheckScript)
  {
    s.open.Pass? && s.worktree.Pass? && s.before.Ok? && GitPull(c, s.pull).status.Pass? && s.after.Ok?
  }

  /** The calls of a check up to its second read of HEAD. */
  function SyncTrace(c: Config, s: CheckScript): seq<Action>
  {
    [PlainOpen(c.directory), OpenWorktree, ReadHead] + GitPull(c, s.pull).actions + [ReadHead]
  }

  /** One run of the check command. */
  function CheckSpec(c: Config, force: bool, s: CheckScript): (r: Effect)
    // errors before the pull are returned before any pull, and nothing is deployed
    ensures s.open.Fail? ==> r == Effect(s.open, [PlainOpen(c.directory)])
    ensures s.open.Pass? && s.worktree.Fail? ==> r.status == s.worktree
    ensures s.open.Pass? && s.worktree.Pass? && s.before.Err? ==> r.status == Fail(s.before.error)
    ensures s.open.Fail? || s.worktree.Fail? || s.before.Err? ==>
      (forall a :: a in r.actions ==> !a.Pull?) && Quiet(r.actions)
    // a pull error or a failed second read is returned, and nothing is deployed
    ensures s.open.Pass? && s.worktree.Pass? && s.before.Ok? && GitPull(c, s.pull).status.Fail? ==>
      r.status == GitPull(c, s.pull).status && Quiet(r.actions)
    ensures s.open.Pass? && s.worktree.Pass? && s.before.Ok? && GitPull(c, s.pull).status.Pass? && s.after.Err? ==>
      r.status == Fail(s.after.error) && Quiet(r.actions)
    // HEAD is read, then pulled, then read again
    ensures CheckSynced(c, s) ==> SyncTrace(c, s) <= r.actions
    // a deployment runs exactly when forced or HEAD moved
    ensures !Quiet(r.actions) <==> CheckSynced(c, s) && ShouldDeploy(force, s.before.value, s.after.value)
    // compose pull first; compose up only when compose pull worked; either error is returned
    ensures CheckSynced(c, s) && ShouldDeploy(force, s.before.value, s.after.value) ==>
      && Refresh in r.actions
      && (Reconcile in r.actions <==> s.refresh.Pass?)
      && (s.refresh.Pass? ==> r.actions[|r.actions| - 2..] == [Refresh, Reconcile])
      && r.status == (if s.refresh.Fail? then s.refresh else s.reconcile)
    // not forced and unchanged: nil
    ensures CheckSynced(c, s) && !ShouldDeploy(force, s.before.value, s.after.value) ==>
      r == Effect(Pass, SyncTrace(c, s))
    ensures r.status.Pass? <==>
      CheckSynced(c, s) && (ShouldDeploy(force, s.before.value, s.after.value) ==> s.refresh.Pass? && s.reconcile.Pass?)
  {
    var opening := [PlainOpen(c.directory)];
    if s.open.Fail? then Effect(s.open, opening)
    else
      var worktree := opening + [OpenWorktree];
      if s.worktree.Fail? then Effect(s.worktree, worktree)
      else
        var read := worktree + [ReadHead];
        if s.before.Err? then Effect(Fail(s.before.error), read)
        else
          var pull := GitPull(c, s.pull);
          var pulled := read + pull.actions;
          if pull.status.Fail? then Effect(pull.status, pulled)
          else
            var reread := pulled + [ReadHead];
            if s.after.Err? then Effect(Fail(s.after.error), reread)
            else if !ShouldDeploy(force, s.before.value, s.after.value) then Effect(Pass, reread)
            else if s.refresh.Fail? then Effect(s.refresh, reread + [Refresh])
            else Effect(s.reconcile, reread + [Refresh, Reconcile])
  }

  /** Run the check command against the collaborators' outcomes. */
  method Run(config: Config, force: bool, s: CheckScript) returns (err: Outcome, trace: seq<Action>)
    ensures Effect(err, trace) == CheckSpec(config, force, s)
  {
    trace := [PlainOpen(config.directory)];
    if s.open.Fail? {
      return s.open, trace;
    }
    trace := trace + [OpenWorktree];
    if s.worktree.Fail? {
      return s.worktree, trace;
    }
    trace := trace + [ReadHead];
    if s.before.Err? {
      return Fail(s.before.error), trace;
    }
    var commit := s.before.value;
    var pull := GitPull(config, s.pull);
    trace := trace + pull.actions;
    if pull.status.Fail? {
      return pull.status, trace;
    }
    trace := trace + [ReadHead];
    if s.after.Err? {
      return Fail(s.after.error), trace;
    }
    var current := s.after.value;
    if force || commit != current {
      trace := trace + [Refresh];
      if s.refresh.Fail? {
        return s.refresh, trace;
      }
      trace := trace + [Reconcile];
      if s.reconcile.Fail? {
        return s.reconcile, trace;
      }
    }
    return Pass, trace;
  }

  /** A forced check deploys even when the pull left HEAD where it was. */
  lemma ForcedCheckDeploys(c: Config, s: CheckScript)
    requires CheckSynced(c, s) && s.before == s.after
    ensures Refresh in CheckSpec(c, true, s).actions
    ensures !CheckSpec(c, false, s).status.Fail? && Quiet(CheckSpec(c, false, s).actions)
  {
  }

  /** Two unforced checks in a row: the first deploys exactly when its own
      pull moved HEAD, and a second one whose pull does not move HEAD never
      deploys, whatever HEAD it starts from. Both follow from the deploy
      condition of `CheckSpec`, restated over the deployment steps. */
  lemma RepeatedCheckDeploysAtMostOnce(c: Config, first: CheckScript, second: CheckScript)
    requires second.after == second.before
    ensures Deployments(CheckSpec(c, false, second).actions) == []
    ensures Deployments(CheckSpec(c, false, first).actions) != [] <==>
      CheckSynced(c, first) && first.before.value != first.after.value
  {
    QuietIffNoDeployments(CheckSpec(c, false, second).actions);
    QuietIffNoDeployments(CheckSpec(c, false, first).actions);
  }
}
