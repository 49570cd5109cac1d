/** The `watch` command: an optional clone, a setup phase whose failures are
    fatal, then a polling loop that pulls on every tick, compares the tip of
    HEAD with the remembered commit, and on a change advances the commit and
    runs compose pull followed by compose up. Failures inside a tick are
    logged and wait for the next tick; cancellation ends the loop.

    The ticker and the cancellation context become a finite sequence of
    events; what the collaborators report on each call is part of the event. */
module Watch {
  import opened Types
  import opened Utils

  /** The command's own flags (the polling interval is not modelled: ticks
      are events). */
  datatype WatchFlags = WatchFlags(clone: bool, onStart: bool)

  /** What the collaborators report during setup, in call order. */
  datatype SetupScript = SetupScript(
    clone: CloneScript,
    open: Outcome,
    worktree: Outcome,
    baseline: Result<CommitRef>,
    pull: PullScript,
    refresh: Outcome,
    reconcile: Outcome)

  /** What the collaborators report during one tick, in call order. */
  datatype TickScript = TickScript(
    pull: PullScript,
    tip: Result<CommitRef>,
    refresh: Outcome,
    reconcile: Outcome)

  /** What the select statement wakes up to: a tick of the ticker, or the
      context being done with its error. */
  datatype Event = Tick(script: TickScript) | Cancel(cause: Error)

  /** How the command stands after the events: it returned an error, or it is
      still polling. */
  datatype Exit = Exited(err: Error) | Polling

  /** The end of setup: the baseline commit, or the fatal error, and the calls made. */
  datatype Setup = Setup(baseline: Result<CommitRef>, actions: seq<Action>)

  /** The remembered commit after a tick and the calls the tick made. */
  datatype Step = Step(commit: CommitRef, actions: seq<Action>)

  datatype PollResult = PollResult(exit: Exit, commit: CommitRef, actions: seq<Action>)

  datatype WatchResult = WatchResult(exit: Exit, actions: seq<Action>)

  /** The clone step tolerates exactly the error chains that contain
      "target directory not empty". */
  predicate CloneTolerated(flags: WatchFlags, c: Config, s: SetupScript)
  {
    !flags.clone || GitClone(c, s.clone).status.Pass? || Is(GitClone(c, s.clone).status.error, TargetDirNotEmpty)
  }

  /** The working copy is open, its HEAD read and the initial pull done. */
  predicate SetupSynced(c: Config, flags: WatchFlags, s: SetupScript)
  {
    && CloneTolerated(flags, c, s)
    && s.open.Pass? && s.worktree.Pass? && s.baseline.Ok?
    && GitPull(c, s.pull).status.Pass?
  }

  /** Every setup step that is run succeeds. */
  predicate SetupSucceeds(c: Config, flags: WatchFlags, s: SetupScript)
  {
    SetupSynced(c, flags, s) && (flags.onStart ==> s.refresh.Pass? && s.reconcile.Pass?)
  }

  /** The optional clone at the start of setup. */
  function SetupClone(c: Config, flags: WatchFlags, s: SetupScript): (r: Effect)
    ensures !flags.clone ==> r == Effect(Pass, [])
    ensures forall a :: a in r.actions ==> CloneCall(a)
    ensures Quiet(r.actions)
  {
    if flags.clone then GitClone(c, s.clone) else Effect(Pass, [])
  }

  /** The setup phase of the watch command. */
  function SetupPhase(c: Config, flags: WatchFlags, s: SetupScript): (r: Setup)
    // no clone unless asked for; a clone error is fatal unless it is "not empty"
    ensures !flags.clone ==> forall a :: a in r.actions ==> !a.PlainClone?
    ensures flags.clone && !CloneTolerated(flags, c, s) ==>
      r == Setup(Err(GitClone(c, s.clone).status.error), GitClone(c, s.clone).actions)
    ensures CloneTolerated(flags, c, s) ==> PlainOpen(c.directory) in r.actions
    // setup succeeds exactly when every step does, and the baseline is HEAD as read before the pull
    ensures r.baseline.Ok? <==> SetupSucceeds(c, flags, s)
    ensures r.baseline.Ok? ==> r.baseline == s.baseline
    // deployment during setup only with onStart, compose pull before compose up
    ensures !flags.onStart ==> Quiet(r.actions)
    ensures flags.onStart && r.baseline.Ok? ==>
      |r.actions| >= 2 && r.actions[|r.actions| - 2..] == [Refresh, Reconcile]
  {
    var cloned := SetupClone(c, flags, s);
    if !CloneTolerated(flags, c, s) then Setup(Err(cloned.status.error), cloned.actions)
    else
      var opening := cloned.actions + [PlainOpen(c.directory)];
      if s.open.Fail? then Setup(Err(s.open.error), opening)
      else
        var worktree := opening + [OpenWorktree];
        if s.worktree.Fail? then Setup(Err(s.worktree.error), worktree)
        else
          var read := worktree + [ReadHead];
          if s.baseline.Err? then Setup(Err(s.baseline.error), read)
          else
            var pull := GitPull(c, s.pull);
            var pulled := read + pull.actions;
            if pull.status.Fail? then Setup(Err(pull.status.error), pulled)
            else if !flags.onStart then Setup(s.baseline, pulled)
            else if s.refresh.Fail? then Setup(Err(s.refresh.error), pulled + [Refresh])
            else if s.reconcile.Fail? then Setup(Err(s.reconcile.error), pulled + [Refresh, Reconcile])
            else Setup(s.baseline, pulled + [Refresh, Reconcile])
  }

  /** Every setup failure is the error of the first step that failed, and
      nothing is deployed before the initial pull has succeeded. */
  lemma SetupFailsAtFirstError(c: Config, flags: WatchFlags, s: SetupScript)
    requires CloneTolerated(flags, c, s)
    ensures var r := SetupPhase(c, flags, s);
      && (s.open.Fail? ==> r.baseline == Err(s.open.error) && Quiet(r.actions))
      && (s.open.Pass? && s.worktree.Fail? ==> r.baseline == Err(s.worktree.error) && Quiet(r.actions))
      && (s.open.Pass? && s.worktree.Pass? && s.baseline.Err? ==>
            r.baseline == s.baseline && Quiet(r.actions) && forall a :: a in r.actions ==> !a.Pull?)
      && (s.open.Pass? && s.worktree.Pass? && s.baseline.Ok? && GitPull(c, s.pull).status.Fail? ==>
            r.baseline == Err(GitPull(c, s.pull).status.error) && Quiet(r.actions))
      && (SetupSynced(c, flags, s) && flags.onStart && s.refresh.Fail? ==>
            r.baseline == Err(s.refresh.error) && Refresh in r.actions && Reconcile !in r.actions)
      && (SetupSynced(c, flags, s) && flags.onStart && s.refresh.Pass? && s.reconcile.Fail? ==>
            r.baseline == Err(s.reconcile.error) && Refresh in r.actions && Reconcile in r.actions)
  {
  }

  /** The baseline is read before the initial pull: once the working copy is
      open, the setup reads HEAD and only then pulls, and nothing before that
      read is a pull. */
  lemma BaselineReadBeforePull(c: Config, flags: WatchFlags, s: SetupScript)
    requires CloneTolerated(flags, c, s) && s.open.Pass? && s.worktree.Pass? && s.baseline.Ok?
    ensures var read := SetupClone(c, flags, s).actions + [PlainOpen(c.directory), OpenWorktree, ReadHead];
      && read + GitPull(c, s.pull).actions <= SetupPhase(c, flags, s).actions
      && forall a :: a in read ==> !a.Pull?
  {
    var cloned := SetupClone(c, flags, s).actions;
    var read := cloned + [PlainOpen(c.directory), OpenWorktree, ReadHead];
    assert read == cloned + [PlainOpen(c.directory)] + [OpenWorktree] + [ReadHead];
    var pull := GitPull(c, s.pull);
    var tail := if pull.status.Fail? || !flags.onStart then []
      else if s.refresh.Fail? then [Refresh] else [Refresh, Reconcile];
    assert SetupPhase(c, flags, s).actions == (read + pull.actions) + tail;
  }

  /** One tick of the polling loop, from the remembered commit. */
  function TickStep(c: Config, commit: CommitRef, t: TickScript): (r: Step)
    // the tick starts with the pull
    ensures GitPull(c, t.pull).actions <= r.actions
    // a failed pull or tip read changes nothing and deploys nothing
    ensures GitPull(c, t.pull).status.Fail? || t.tip.Err? ==> r.commit == commit && Quiet(r.actions)
    // an unchanged tip changes nothing and deploys nothing
    ensures t.tip == Ok(commit) ==> r.commit == commit && Quiet(r.actions)
    // a new tip is remembered before and whatever the deployment does; compose up only after a good compose pull
    ensures GitPull(c, t.pull).status.Pass? && t.tip.Ok? && t.tip.value != commit ==>
      && r.commit == t.tip.value
      && r.actions == GitPull(c, t.pull).actions + [ReadHead]
                      + (if t.refresh.Pass? then [Refresh, Reconcile] else [Refresh])
    // the commit is only ever taken from a successful pull and tip read
    ensures r.commit == commit || (GitPull(c, t.pull).status.Pass? && t.tip == Ok(r.commit))
  {
    var pull := GitPull(c, t.pull);
    if pull.status.Fail? then Step(commit, pull.actions)
    else if t.tip.Err? then Step(commit, pull.actions + [ReadHead])
    else if t.tip.value == commit then Step(commit, pull.actions + [ReadHead])
    else if t.refresh.Fail? then Step(t.tip.value, pull.actions + [ReadHead] + [Refresh])
    else Step(t.tip.value, pull.actions + [ReadHead] + [Refresh, Reconcile])
  }

  /** What the loop runs on every tick: from the remembered commit and what
      the collaborators report, the new commit and the calls made. */
  type Handler = (CommitRef, TickScript) -> Step

  /** The polling loop over a sequence of events, from the remembered commit,
      with `handle` run on every tick. */
  function Loop(handle: Handler, commit: CommitRef, events: seq<Event>): PollResult
    decreases |events|
  {
    if events == [] then PollResult(Polling, commit, [])
    else match events[0]
      case Cancel(e) => PollResult(Exited(e), commit, [])
      case Tick(t) =>
        var step := handle(commit, t);
        var rest := Loop(handle, step.commit, events[1..]);
        PollResult(rest.exit, rest.commit, step.actions + rest.actions)
  }

  /** The tick handler of the watch command. */
  function TickHandler(c: Config): Handler
  {
    (commit: CommitRef, t: TickScript) => TickStep(c, commit, t)
  }

  /** The polling loop of the watch command. */
  function Poll(c: Config, commit: CommitRef, events: seq<Event>): PollResult
  {
    Loop(TickHandler(c), commit, events)
  }

  /** The loop only ever returns the error of a cancellation that occurred;
      without a cancellation it is still polling; a cancellation first stops it
      at once, before any call. */
  lemma {:induction false} LoopExits(handle: Handler, commit: CommitRef, events: seq<Event>)
    decreases |events|
    ensures var r := Loop(handle, commit, events);
      && (r.exit.Exited? ==> Cancel(r.exit.err) in events)
      && ((forall e :: e in events ==> e.Tick?) ==> r.exit == Polling)
      && (events != [] && events[0].Cancel? ==> r == PollResult(Exited(events[0].cause), commit, []))
  {
    if events != [] && events[0].Tick? {
      var step := handle(commit, events[0].script);
      LoopExits(handle, step.commit, events[1..]);
      assert forall e :: e in events[1..] ==> e in events;
    }
  }

  /** A tick at the head of the events is handled, then the loop goes on from
      the commit it leaves. */
  lemma LoopTick(handle: Handler, commit: CommitRef, events: seq<Event>)
    requires events != [] && events[0].Tick?
    ensures var step := handle(commit, events[0].script);
      var rest := Loop(handle, step.commit, events[1..]);
      Loop(handle, commit, events) == PollResult(rest.exit, rest.commit, step.actions + rest.actions)
  {
  }

  /** Splitting the events after a run of ticks: the loop continues from the
      commit the first part left. */
  lemma {:induction false} LoopAppend(handle: Handler, commit: CommitRef, pre: seq<Event>, post: seq<Event>)
    requires forall e :: e in pre ==> e.Tick?
    decreases |pre|
    ensures var p := Loop(handle, commit, pre);
      var q := Loop(handle, p.commit, post);
      Loop(handle, commit, pre + post) == PollResult(q.exit, q.commit, p.actions + q.actions)
  {
    if pre == [] {
      assert pre + post == post;
    } else {
      var step := handle(commit, pre[0].script);
      assert (pre + post)[1..] == pre[1..] + post;
      LoopAppend(handle, step.commit, pre[1..], post);
    }
  }

  /** One iteration of the polling loop: handling the tick at `i` moves the
      loop on to the events after it, with the tick's calls added to those
      already made. */
  lemma PollAdvance(c: Config, commit: CommitRef, events: seq<Event>, i: nat, done: seq<Action>)
    requires i < |events| && events[i].Tick?
    ensures var step := TickStep(c, commit, events[i].script);
      var rest := Poll(c, commit, events[i..]);
      var next := Poll(c, step.commit, events[i + 1..]);
      PollResult(rest.exit, rest.commit, done + rest.actions)
        == PollResult(next.exit, next.commit, (done + step.actions) + next.actions)
  {
    var step := TickStep(c, commit, events[i].script);
    LoopTick(TickHandler(c), commit, events[i..]);
    assert events[i..][1..] == events[i + 1..];
    var next := Poll(c, step.commit, events[i + 1..]);
    assert done + (step.actions + next.actions) == (done + step.actions) + next.actions;
  }

  /** The whole watch command: setup, then polling from the baseline. */
  function WatchSpec(c: Config, flags: WatchFlags, s: SetupScript, events: seq<Event>): (r: WatchResult)
    // setup failures are returned and the polling loop never starts
    ensures SetupPhase(c, flags, s).baseline.Err? ==>
      r == WatchResult(Exited(SetupPhase(c, flags, s).baseline.error), SetupPhase(c, flags, s).actions)
    // only setup errors and the cancellation's error are ever returned
    ensures r.exit.Exited? ==> SetupPhase(c, flags, s).baseline.Err? || Cancel(r.exit.err) in events
    ensures SetupPhase(c, flags, s).actions <= r.actions
  {
    var setup := SetupPhase(c, flags, s);
    match setup.baseline
    case Err(e) => WatchResult(Exited(e), setup.actions)
    case Ok(baseline) =>
      var poll := Poll(c, baseline, events);
      LoopExits(TickHandler(c), baseline, events);
      WatchResult(poll.exit, setup.actions + poll.actions)
  }

  /** The loop's state: the remembered commit and the calls made so far. */
  class Watcher {
    const config: Config
    var commit: CommitRef
    var trace: seq<Action>

    constructor (config: Config, baseline: CommitRef, trace: seq<Action>)
      ensures this.config == config && commit == baseline && this.trace == trace
    {
      this.config := config;
      commit := baseline;
      this.trace := trace;
    }

    /** Handle one tick; every failure ends the tick, none ends the loop. */
    method Tick(t: TickScript)
      modifies this
      ensures commit == TickStep(config, old(commit), t).commit
      ensures trace == old(trace) + TickStep(config, old(commit), t).actions
    {
      var pull := GitPull(config, t.pull);
      trace := trace + pull.actions;
      if pull.status.Fail? {
        return;
      }
      trace := trace + [ReadHead];
      if t.tip.Err? {
        return;
      }
      var current := t.tip.value;
      if current == commit {
        return;
      }
      commit := current;
      trace := trace + [Refresh];
      if t.refresh.Fail? {
        return;
      }
      trace := trace + [Reconcile];
    }

    /** The polling loop: a tick is handled and the loop goes on; a
        cancellation stops it with the context's error. */
    method Watch(events: seq<Event>) returns (exit: Exit)
      modifies this
      ensures exit == Poll(config, old(commit), events).exit && commit == Poll(config, old(commit), events).commit
      ensures trace == old(trace) + Poll(config, old(commit), events).actions
    {
      ghost var spec := Poll(config, commit, events);
      ghost var done: seq<Action> := [];
      var i := 0;
      assert events[0..] == events;
      while i < |events|
        invariant 0 <= i <= |events|
        invariant trace == old(trace) + done
        invariant spec == var rest := Poll(config, commit, events[i..]);
          PollResult(rest.exit, rest.commit, done + rest.actions)
      {
        match events[i] {
          case Cancel(e) =>
            return Exited(e);
          case Tick(t) =>
            ghost var step := TickStep(config, commit, t);
            PollAdvance(config, commit, events, i, done);
            Tick(t);
            done := done + step.actions;
        }
        i := i + 1;
      }
      return Polling;
    }
  }

  /** The setup steps of the watch command, each failure returned at once. */
  method RunSetup(config: Config, flags: WatchFlags, s: SetupScript) returns (setup: Setup)
    ensures setup == SetupPhase(config, flags, s)
  {
    var trace := [];
    if flags.clone {
      var cloned := GitClone(config, s.clone);
      trace := cloned.actions;
      if cloned.status.Fail? && !Is(cloned.status.error, TargetDirNotEmpty) {
        return Setup(Err(cloned.status.error), trace);
      }
    }
    trace := trace + [PlainOpen(config.directory)];
    if s.open.Fail? {
      return Setup(Err(s.open.error), trace);
    }
    trace := trace + [OpenWorktree];
    if s.worktree.Fail? {
      return Setup(Err(s.worktree.error), trace);
    }
    trace := trace + [ReadHead];
    if s.baseline.Err? {
      return Setup(Err(s.baseline.error), trace);
    }
    var pull := GitPull(config, s.pull);
    trace := trace + pull.actions;
    if pull.status.Fail? {
      return Setup(Err(pull.status.error), trace);
    }
    if flags.onStart {
      trace := trace + [Refresh];
      if s.refresh.Fail? {
        return Setup(Err(s.refresh.error), trace);
      }
      trace := trace + [Reconcile];
      if s.reconcile.Fail? {
        return Setup(Err(s.reconcile.error), trace);
      }
    }
    return Setup(s.baseline, trace);
  }

  /** Run the watch command against the setup outcomes and the events. */
  method Run(config: Config, flags: WatchFlags, s: SetupScript, events: seq<Event>)
    returns (exit: Exit, trace: seq<Action>)
    ensures WatchResult(exit, trace) == WatchSpec(config, flags, s, events)
  {
    var setup := RunSetup(config, flags, s);
    if setup.baseline.Err? {
      return Exited(setup.baseline.error), setup.actions;
    }
    var w := new Watcher(config, setup.baseline.value, setup.actions);
    exit := w.Watch(events);
    trace := w.trace;
  }

  /** Ticks whose tip, whenever read, is the remembered commit never change
      the commit and never deploy. */
  lemma {:induction false} StableTipIsQuiet(c: Config, commit: CommitRef, events: seq<Event>)
    requires forall e :: e in events && e.Tick? && GitPull(c, e.script.pull).status.Pass? && e.script.tip.Ok? ==>
      e.script.tip.value == commit
    ensures Poll(c, commit, events).commit == commit
    ensures Quiet(Poll(c, commit, events).actions)
  {
    if events != [] && events[0].Tick? {
      StableTipIsQuiet(c, commit, events[1..]);
    }
  }

  /** Ticks whose pull or tip read fails never change the commit, never
      deploy and never end the loop. */
  lemma {:induction false} FailedTicksKeepCommit(c: Config, commit: CommitRef, events: seq<Event>)
    requires forall e :: e in events ==> e.Tick? && (GitPull(c, e.script.pull).status.Fail? || e.script.tip.Err?)
    ensures Poll(c, commit, events).commit == commit
    ensures Quiet(Poll(c, commit, events).actions)
    ensures Poll(c, commit, events).exit == Polling
  {
    if events != [] {
      FailedTicksKeepCommit(c, commit, events[1..]);
    }
  }

  /** A tick that finds a new tip `b`, with a compose pull that works,
      followed by ticks that only ever see `b`: one compose pull and one
      compose up in that order, and `b` remembered. */
  lemma ChangeDeploysOnce(c: Config, a: CommitRef, b: CommitRef, t: TickScript, post: seq<Event>)
    requires GitPull(c, t.pull).status.Pass? && t.tip == Ok(b) && b != a && t.refresh.Pass?
    requires forall e :: e in post ==> e.Tick? && (GitPull(c, e.script.pull).status.Pass? && e.script.tip.Ok? ==> e.script.tip.value == b)
    ensures var r := Poll(c, a, [Tick(t)] + post);
      r.commit == b && Deployments(r.actions) == [Refresh, Reconcile] && r.exit == Polling
  {
    var step := TickStep(c, a, t);
    LoopTick(TickHandler(c), a, [Tick(t)] + post);
    assert ([Tick(t)] + post)[1..] == post;
    StableTipIsQuiet(c, b, post);
    LoopExits(TickHandler(c), b, post);
    var q := Poll(c, b, post);
    var synced := GitPull(c, t.pull).actions + [ReadHead];
    assert step.actions == synced + [Refresh, Reconcile];
    QuietIffNoDeployments(synced);
    QuietIffNoDeployments(q.actions);
    DeploymentsAppend(synced, [Refresh, Reconcile]);
    DeploymentsAppend(step.actions, q.actions);
  }

  /** The tip moves from `a` to `b` once: exactly one compose pull and one
      compose up, in that order, and `b` is remembered afterwards. */
  lemma SingleChangeDeploysOnce(c: Config, a: CommitRef, b: CommitRef,
                                pre: seq<Event>, t: TickScript, post: seq<Event>)
    requires forall e :: e in pre ==> e.Tick? && (GitPull(c, e.script.pull).status.Pass? && e.script.tip.Ok? ==> e.script.tip.value == a)
    requires GitPull(c, t.pull).status.Pass? && t.tip == Ok(b) && b != a && t.refresh.Pass?
    requires forall e :: e in post ==> e.Tick? && (GitPull(c, e.script.pull).status.Pass? && e.script.tip.Ok? ==> e.script.tip.value == b)
    ensures var r := Poll(c, a, pre + [Tick(t)] + post);
      r.commit == b && Deployments(r.actions) == [Refresh, Reconcile] && r.exit == Polling
  {
    assert pre + [Tick(t)] + post == pre + ([Tick(t)] + post);
    LoopAppend(TickHandler(c), a, pre, [Tick(t)] + post);
    StableTipIsQuiet(c, a, pre);
    ChangeDeploysOnce(c, a, b, t, post);
    var p := Poll(c, a, pre);
    QuietIffNoDeployments(p.actions);
    DeploymentsAppend(p.actions, Poll(c, a, [Tick(t)] + post).actions);
  }

  /** The baseline is HEAD before the initial pull: if that pull moved HEAD,
      the first tick that pulls and reads the tip sees the difference, takes
      the new tip, and runs compose pull in the polling loop, after the
      setup's own calls. */
  lemma StaleBaselineDeploys(c: Config, flags: WatchFlags, s: SetupScript,
                             pre: seq<Event>, t: TickScript, post: seq<Event>)
    requires SetupSucceeds(c, flags, s)
    requires forall e :: e in pre ==> e.Tick? && (GitPull(c, e.script.pull).status.Fail? || e.script.tip.Err?)
    requires GitPull(c, t.pull).status.Pass? && t.tip.Ok? && t.tip.value != s.baseline.value
    ensures WatchSpec(c, flags, s, pre + [Tick(t)] + post).actions
      == SetupPhase(c, flags, s).actions + Poll(c, s.baseline.value, pre + [Tick(t)] + post).actions
    ensures Poll(c, s.baseline.value, pre + [Tick(t)]).commit == t.tip.value
    ensures Refresh in Poll(c, s.baseline.value, pre + [Tick(t)] + post).actions
  {
    var baseline := s.baseline.value;
    var step := TickStep(c, baseline, t);
    FailedTicksKeepCommit(c, baseline, pre);
    // the tick after the failed ones starts from the baseline and takes the new tip
    LoopAppend(TickHandler(c), baseline, pre, [Tick(t)]);
    LoopTick(TickHandler(c), baseline, [Tick(t)]);
    assert [Tick(t)][1..] == [];
    // over the whole run, compose pull is among that tick's calls
    assert pre + [Tick(t)] + post == pre + ([Tick(t)] + post);
    LoopAppend(TickHandler(c), baseline, pre, [Tick(t)] + post);
    LoopTick(TickHandler(c), baseline, [Tick(t)] + post);
    assert ([Tick(t)] + post)[1..] == post;
    assert Refresh in step.actions;
  }

  /** Without an on-start deployment and with the tip never moving away from
      the baseline, nothing is ever deployed and the commit stays the baseline. */
  lemma QuietWatch(c: Config, flags: WatchFlags, s: SetupScript, events: seq<Event>)
    requires !flags.onStart && SetupSucceeds(c, flags, s)
    requires forall e :: e in events && e.Tick? && GitPull(c, e.script.pull).status.Pass? && e.script.tip.Ok? ==>
      e.script.tip == s.baseline
    ensures Deployments(WatchSpec(c, flags, s, events).actions) == []
    ensures Poll(c, s.baseline.value, events).commit == s.baseline.value
  {
    StableTipIsQuiet(c, s.baseline.value, events);
    QuietIffNoDeployments(WatchSpec(c, flags, s, events).actions);
  }
}
