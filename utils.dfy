/** The helpers of the root command: building clone and pull options with the
    configured authentication, cloning with a branch checkout that falls back
    to an explicit fetch, pulling with "already up to date" as success, and
    running docker compose with its exact argument vector. */
module Utils {
  import opened Types

  /** The user name under which an SSH key is offered. */
  const SshUser: string := "git"

  /** The remote every pull and fetch goes to. */
  const Origin: string := "origin"

  /** The authentication rule both option builders follow: a configured key
      wins and takes the password as its passphrase; otherwise basic
      authentication needs both a user name and a password; otherwise none. */
  predicate AuthRule(c: Config, a: Auth)
  {
    && (a.Ssh? <==> c.key != "")
    && (a.Ssh? ==> a == Ssh(SshUser, c.key, c.password))
    && (a.Basic? <==> c.key == "" && c.username != "" && c.password != "")
    && (a.Basic? ==> a == Basic(c.username, c.password))
  }

  /** The rule leaves exactly one choice for each configuration. */
  lemma AuthRuleUnique(c: Config, a1: Auth, a2: Auth)
    requires AuthRule(c, a1) && AuthRule(c, a2)
    ensures a1 == a2
  {
  }

  /** Clone options for the configured URL. `keyLoad` is what loading the
      configured SSH key file reports; it is consulted only when a key is set. */
  function CloneOptions(c: Config, keyLoad: Outcome): (r: Result<GitCloneOptions>)
    ensures r.Err? <==> c.key != "" && keyLoad.Fail?
    ensures r.Err? ==> r.error == keyLoad.error
    ensures r.Ok? ==> r.value.url == c.url && AuthRule(c, r.value.auth)
  {
    if c.key != "" then
      if keyLoad.Fail? then Err(keyLoad.error)
      else Ok(GitCloneOptions(c.url, Ssh(SshUser, c.key, c.password)))
    else if c.username != "" && c.password != "" then
      Ok(GitCloneOptions(c.url, Basic(c.username, c.password)))
    else
      Ok(GitCloneOptions(c.url, NoAuth))
  }

  /** Pull options against the origin remote, with the same authentication. */
  function PullOptions(c: Config, keyLoad: Outcome): (r: Result<GitPullOptions>)
    ensures r.Err? <==> c.key != "" && keyLoad.Fail?
    ensures r.Err? ==> r.error == keyLoad.error
    ensures r.Ok? ==> r.value.remoteName == Origin && AuthRule(c, r.value.auth)
  {
    if c.key != "" then
      if keyLoad.Fail? then Err(keyLoad.error)
      else Ok(GitPullOptions(Origin, Ssh(SshUser, c.key, c.password)))
    else if c.username != "" && c.password != "" then
      Ok(GitPullOptions(Origin, Basic(c.username, c.password)))
    else
      Ok(GitPullOptions(Origin, NoAuth))
  }

  /** The two builders fail together and, when they succeed, choose the same
      authentication for the same configuration. */
  lemma OptionsAgree(c: Config, keyLoad: Outcome)
    ensures CloneOptions(c, keyLoad).Err? <==> PullOptions(c, keyLoad).Err?
    ensures CloneOptions(c, keyLoad).Ok? ==>
      CloneOptions(c, keyLoad).value.auth == PullOptions(c, keyLoad).value.auth
  {
    if CloneOptions(c, keyLoad).Ok? {
      AuthRuleUnique(c, CloneOptions(c, keyLoad).value.auth, PullOptions(c, keyLoad).value.auth);
    }
  }

  /** With a key configured, the user name plays no part in the options. */
  lemma KeyIgnoresUsername(c: Config, keyLoad: Outcome, username: string)
    requires c.key != ""
    ensures CloneOptions(c.(username := username), keyLoad) == CloneOptions(c, keyLoad)
    ensures PullOptions(c.(username := username), keyLoad) == PullOptions(c, keyLoad)
  {
  }

  /** The full reference name of a local branch. */
  function BranchRef(branch: string): (r: string)
    ensures |r| == |"refs/heads/"| + |branch| && r[..11] == "refs/heads/" && r[11..] == branch
  {
    "refs/heads/" + branch
  }

  /** The refspec that fetches `branch` from the remote into the local branch
      of the same name. */
  function RefSpec(branch: string): (r: string)
    ensures r == BranchRef(branch) + ":" + BranchRef(branch)
  {
    "refs/heads/" + branch + ":refs/heads/" + branch
  }

  /** Different branches give different refspecs, so the fallback fetches
      exactly the requested branch. */
  lemma RefSpecInjective(b1: string, b2: string)
    requires RefSpec(b1) == RefSpec(b2)
    ensures b1 == b2
  {
    var s := RefSpec(b1);
    assert |s| == 23 + 2 * |b1| == 23 + 2 * |b2|;
    assert b1 == s[11..11 + |b1|];
    assert b2 == s[11..11 + |b2|];
  }

  /** The collaborator outcomes one clone runs into, in call order: loading
      the key, cloning, opening the worktree, the first checkout, looking up
      the origin remote, fetching the branch, and the second checkout. */
  datatype CloneScript = CloneScript(
    keyLoad: Outcome,
    clone: Outcome,
    worktree: Outcome,
    checkout: Outcome,
    remote: Outcome,
    fetch: Outcome,
    retry: Outcome)

  /** The steps before any checkout all succeed. */
  predicate ClonePrepared(c: Config, s: CloneScript)
  {
    CloneOptions(c, s.keyLoad).Ok? && s.clone.Pass? && s.worktree.Pass?
  }

  /** A fetch result that lets the fallback go on to its retry: success, or
      exactly the "already up to date" sentinel (compared with `!=`, so a
      wrapped sentinel does not count). */
  predicate FetchTolerated(fetch: Outcome)
  {
    fetch.Pass? || fetch.error == AlreadyUpToDate
  }

  /** The calls a clone may make. */
  predicate CloneCall(a: Action)
  {
    a.PlainClone? || a.OpenWorktree? || a.Checkout? || a.LookupRemote? || a.Fetch?
  }

  /** The checkout of the configured branch (forced), with its fallback: when
      the local checkout fails, look up origin, fetch the branch under its own
      name, and check out once more. */
  function CheckoutBranch(c: Config, s: CloneScript): (r: Effect)
    // the first call is always the forced checkout of the branch
    ensures 1 <= |r.actions| <= 4 && r.actions[0] == Checkout(BranchRef(c.branch), true)
    // a first checkout that works needs no remote and no fetch
    ensures s.checkout.Pass? ==> r.status == Pass && forall a :: a in r.actions ==> !a.LookupRemote? && !a.Fetch?
    // only the fetch of the branch's refspec
    ensures forall a :: a in r.actions && a.Fetch? ==> a == Fetch([RefSpec(c.branch)])
    // the result is the outcome of the last call made
    ensures var last := r.actions[|r.actions| - 1];
      && (last.LookupRemote? ==> r.status == s.remote)
      && (last.Fetch? ==> r.status == s.fetch)
      && (last.Checkout? ==> r.status == (if |r.actions| == 1 then s.checkout else s.retry))
  {
    var checkout := Checkout(BranchRef(c.branch), true);
    var fetch := Fetch([RefSpec(c.branch)]);
    if s.checkout.Pass? then Effect(Pass, [checkout])
    else if s.remote.Fail? then Effect(s.remote, [checkout, LookupRemote(Origin)])
    else if !FetchTolerated(s.fetch) then Effect(s.fetch, [checkout, LookupRemote(Origin), fetch])
    else Effect(s.retry, [checkout, LookupRemote(Origin), fetch, checkout])
  }

  /** The checkout with fallback fetches at most once, and checks out a second
      time exactly when origin was found and the fetch result is tolerated;
      that second checkout is then the last call. */
  lemma CheckoutBranchCounts(c: Config, s: CloneScript)
    ensures var r := CheckoutBranch(c, s);
      && multiset(r.actions)[Fetch([RefSpec(c.branch)])] <= 1
      && (multiset(r.actions)[Checkout(BranchRef(c.branch), true)] == 2 <==>
            s.checkout.Fail? && s.remote.Pass? && FetchTolerated(s.fetch))
      && (multiset(r.actions)[Checkout(BranchRef(c.branch), true)] == 2 ==>
            r.actions[|r.actions| - 1] == Checkout(BranchRef(c.branch), true))
  {
    FallbackCounts(Checkout(BranchRef(c.branch), true), Fetch([RefSpec(c.branch)]));
  }

  /** A failed first checkout is followed by the lookup of origin; when that
      lookup fails its error ends the checkout, with no fetch. */
  lemma CheckoutLooksUpOrigin(c: Config, s: CloneScript)
    requires s.checkout.Fail?
    ensures var r := CheckoutBranch(c, s);
      && |r.actions| >= 2 && r.actions[1] == LookupRemote(Origin)
      && (s.remote.Fail? ==> r == Effect(s.remote, [Checkout(BranchRef(c.branch), true), LookupRemote(Origin)]))
  {
  }

  /** Counting in the four possible checkout traces. Stated apart, so that
      the proof of CheckoutBranchCounts stays small on every solver seed. */
  lemma FallbackCounts(checkout: Action, fetch: Action)
    requires checkout.Checkout? && fetch.Fetch?
    ensures multiset([checkout])[checkout] == 1 && multiset([checkout])[fetch] == 0
    ensures multiset([checkout, LookupRemote(Origin)])[checkout] == 1
    ensures multiset([checkout, LookupRemote(Origin)])[fetch] == 0
    ensures multiset([checkout, LookupRemote(Origin), fetch])[checkout] == 1
    ensures multiset([checkout, LookupRemote(Origin), fetch])[fetch] == 1
    ensures multiset([checkout, LookupRemote(Origin), fetch, checkout])[checkout] == 2
    ensures multiset([checkout, LookupRemote(Origin), fetch, checkout])[fetch] == 1
  {
    var head := [checkout, LookupRemote(Origin)];
    assert multiset(head) == multiset{checkout, LookupRemote(Origin)};
    assert [checkout, LookupRemote(Origin), fetch] == head + [fetch];
    assert [checkout, LookupRemote(Origin), fetch, checkout] == head + [fetch, checkout];
  }

  /** Clone the repository into the configured directory, open its worktree
      and check out the configured branch with the fallback. */
  function GitClone(c: Config, s: CloneScript): (r: Effect)
    // only clone calls, and no deployment
    ensures forall a :: a in r.actions ==> CloneCall(a)
    ensures Quiet(r.actions)
    // errors before the checkout are returned before any checkout is made
    ensures CloneOptions(c, s.keyLoad).Err? ==> r == Effect(Fail(s.keyLoad.error), [])
    ensures CloneOptions(c, s.keyLoad).Ok? && s.clone.Fail? ==>
      r == Effect(s.clone, [PlainClone(c.directory, CloneOptions(c, s.keyLoad).value)])
    ensures CloneOptions(c, s.keyLoad).Ok? && s.clone.Pass? && s.worktree.Fail? ==>
      r == Effect(s.worktree, [PlainClone(c.directory, CloneOptions(c, s.keyLoad).value), OpenWorktree])
    ensures !ClonePrepared(c, s) ==> r.status.Fail? && forall a :: a in r.actions ==> !a.Checkout?
    // once prepared, the clone's result is that of the checkout with its fallback
    ensures ClonePrepared(c, s) ==>
      && r.status == CheckoutBranch(c, s).status
      && r.actions == [PlainClone(c.directory, CloneOptions(c, s.keyLoad).value), OpenWorktree]
                      + CheckoutBranch(c, s).actions
    // overall: when the clone reports success
    ensures r.status.Pass? <==>
      ClonePrepared(c, s) && (s.checkout.Pass? || (s.remote.Pass? && FetchTolerated(s.fetch) && s.retry.Pass?))
  {
    match CloneOptions(c, s.keyLoad)
    case Err(e) => Effect(Fail(e), [])
    case Ok(opts) =>
      var cloned := [PlainClone(c.directory, opts)];
      if s.clone.Fail? then Effect(s.clone, cloned)
      else
        var worktree := cloned + [OpenWorktree];
        if s.worktree.Fail? then Effect(s.worktree, worktree)
        else
          var checkout := CheckoutBranch(c, s);
          Effect(checkout.status, worktree + checkout.actions)
  }

  /** A first checkout that works makes no remote lookup and no fetch. */
  lemma CheckoutFirstTryNoFetch(c: Config, s: CloneScript)
    requires ClonePrepared(c, s) && s.checkout.Pass?
    ensures GitClone(c, s).status == Pass
    ensures multiset(GitClone(c, s).actions)[Checkout(BranchRef(c.branch), true)] == 1
    ensures forall a :: a in GitClone(c, s).actions ==> !a.LookupRemote? && !a.Fetch?
  {
    var r := GitClone(c, s);
    assert r.actions == [PlainClone(c.directory, CloneOptions(c, s.keyLoad).value), OpenWorktree,
                         Checkout(BranchRef(c.branch), true)];
  }

  /** The clone's calls when the first checkout fails and origin is found:
      the clone call, worktree, checkout, remote lookup and the fetch, then the
      retry when the fetch result is tolerated. It does not mention the
      configuration, which keeps the counting below cheap for the solver. */
  function FallbackTrace(clone: Action, branch: string, retried: bool): seq<Action>
  {
    var checkout := Checkout(BranchRef(branch), true);
    [clone, OpenWorktree, checkout, LookupRemote(Origin), Fetch([RefSpec(branch)])]
      + (if retried then [checkout] else [])
  }

  /** Counting in the fallback trace: one fetch, of the branch refspec, and
      one checkout more when retried. The two lemmas below go through it so
      that their proofs stay within the resource limit on every solver seed. */
  lemma FallbackTraceCounts(clone: Action, branch: string, retried: bool)
    requires clone.PlainClone?
    ensures var t := FallbackTrace(clone, branch, retried);
      && multiset(t)[Fetch([RefSpec(branch)])] == 1
      && (forall a :: a in t && a.Fetch? ==> a == Fetch([RefSpec(branch)]))
      && multiset(t)[Checkout(BranchRef(branch), true)] == (if retried then 2 else 1)
  {
    var checkout := Checkout(BranchRef(branch), true);
    var fetch := Fetch([RefSpec(branch)]);
    var head := [clone, OpenWorktree, checkout, LookupRemote(Origin)];
    assert multiset(head) == multiset{clone, OpenWorktree, checkout, LookupRemote(Origin)};
    assert multiset(head)[fetch] == 0 && multiset(head)[checkout] == 1;
    var tail := [fetch] + (if retried then [checkout] else []);
    assert FallbackTrace(clone, branch, retried) == head + tail;
    assert multiset(head + tail) == multiset(head) + multiset(tail);
  }

  /** A failed first checkout with origin found and a tolerated fetch result
      (success or "already up to date") makes exactly one fetch, of the
      refspec `refs/heads/<b>:refs/heads/<b>`, then exactly one retry, whose
      outcome is the clone's result. */
  lemma FallbackRetriesOnce(c: Config, s: CloneScript)
    requires ClonePrepared(c, s) && s.checkout.Fail? && s.remote.Pass? && FetchTolerated(s.fetch)
    ensures var r := GitClone(c, s);
      && r.status == s.retry
      && multiset(r.actions)[Fetch([RefSpec(c.branch)])] == 1
      && (forall a :: a in r.actions && a.Fetch? ==> a == Fetch([RefSpec(c.branch)]))
      && multiset(r.actions)[Checkout(BranchRef(c.branch), true)] == 2
      && r.actions[|r.actions| - 2] == Fetch([RefSpec(c.branch)])
      && r.actions[|r.actions| - 1] == Checkout(BranchRef(c.branch), true)
  {
    var clone := PlainClone(c.directory, CloneOptions(c, s.keyLoad).value);
    assert GitClone(c, s) == Effect(s.retry, FallbackTrace(clone, c.branch, true));
    FallbackTraceCounts(clone, c.branch, true);
  }

  /** A failed first checkout with origin found and any other fetch error
      makes exactly one fetch and no retry; the fetch error is the result. */
  lemma FallbackFetchErrorNoRetry(c: Config, s: CloneScript)
    requires ClonePrepared(c, s) && s.checkout.Fail? && s.remote.Pass? && !FetchTolerated(s.fetch)
    ensures var r := GitClone(c, s);
      && r.status == s.fetch
      && multiset(r.actions)[Fetch([RefSpec(c.branch)])] == 1
      && (forall a :: a in r.actions && a.Fetch? ==> a == Fetch([RefSpec(c.branch)]))
      && multiset(r.actions)[Checkout(BranchRef(c.branch), true)] == 1
  {
    var clone := PlainClone(c.directory, CloneOptions(c, s.keyLoad).value);
    assert GitClone(c, s) == Effect(s.fetch, FallbackTrace(clone, c.branch, false));
    FallbackTraceCounts(clone, c.branch, false);
  }

  /** The collaborator outcomes one pull runs into: loading the key, then the pull. */
  datatype PullScript = PullScript(keyLoad: Outcome, pull: Outcome)

  /** A pull outcome counted as success: success, or "already up to date"
      anywhere in the error's wrap chain. */
  predicate PullTolerated(pull: Outcome)
  {
    pull.Pass? || Is(pull.error, AlreadyUpToDate)
  }

  /** The fetch fallback and the pull disagree on a wrapped sentinel: both
      accept "already up to date" itself, only the pull accepts it wrapped.
      An error whose chain lacks the sentinel is accepted by neither, and
      wrapping an error never changes what the pull accepts. */
  lemma ToleranceDiffers(message: string, e: Error)
    ensures FetchTolerated(Fail(AlreadyUpToDate)) && PullTolerated(Fail(AlreadyUpToDate))
    ensures !FetchTolerated(Fail(Wrapped(message, AlreadyUpToDate)))
    ensures PullTolerated(Fail(Wrapped(message, AlreadyUpToDate)))
    ensures !FetchTolerated(Fail(Failure(message))) && !PullTolerated(Fail(Failure(message)))
    ensures !Is(e, AlreadyUpToDate) ==> !FetchTolerated(Fail(e)) && !PullTolerated(Fail(e))
    ensures !FetchTolerated(Fail(Wrapped(message, e)))
    ensures PullTolerated(Fail(Wrapped(message, e))) <==> PullTolerated(Fail(e))
  {
  }

  /** Pull the current branch from origin. */
  function GitPull(c: Config, s: PullScript): (r: Effect)
    // an option error comes back before any pull
    ensures PullOptions(c, s.keyLoad).Err? ==> r == Effect(Fail(s.keyLoad.error), [])
    ensures PullOptions(c, s.keyLoad).Ok? ==> r.actions == [Pull(PullOptions(c, s.keyLoad).value)]
    ensures r.status.Pass? <==> PullOptions(c, s.keyLoad).Ok? && PullTolerated(s.pull)
    ensures PullOptions(c, s.keyLoad).Ok? && r.status.Fail? ==> r.status == s.pull
    ensures |r.actions| <= 1 && forall a :: a in r.actions ==> a.Pull?
    ensures Quiet(r.actions)
  {
    match PullOptions(c, s.keyLoad)
    case Err(e) => Effect(Fail(e), [])
    case Ok(opts) =>
      if PullTolerated(s.pull) then Effect(Pass, [Pull(opts)])
      else Effect(s.pull, [Pull(opts)])
  }

  const ComposePrefix: seq<string> := ["compose", "--progress", "quiet"]
  const ComposeSuffix: seq<string> := ["up", "-d", "--remove-orphans", "--pull", "always"]

  /** One `-f <file>` pair per compose file, in the order given. */
  function FileFlags(files: seq<string>): (r: seq<string>)
    ensures |r| == 2 * |files|
  {
    if files == [] then [] else ["-f", files[0]] + FileFlags(files[1..])
  }

  lemma {:induction false} FileFlagsAt(files: seq<string>, i: nat)
    requires i < |files|
    ensures FileFlags(files)[2 * i] == "-f" && FileFlags(files)[2 * i + 1] == files[i]
  {
    if i > 0 {
      FileFlagsAt(files[1..], i - 1);
    }
  }

  lemma {:induction false} FileFlagsSnoc(files: seq<string>, f: string)
    ensures FileFlags(files + [f]) == FileFlags(files) + ["-f", f]
  {
    if files == [] {
      assert files + [f] == [f];
    } else {
      assert (files + [f])[1..] == files[1..] + [f];
      FileFlagsSnoc(files[1..], f);
    }
  }

  /** What running the docker binary reports: its exit status and what it
      wrote to its two output streams. */
  datatype ProcessResult = ProcessResult(status: Outcome, stdout: string, stderr: string)

  /** One attribute of a structured log record. */
  datatype Attr = Attr(key: string, value: string)

  const DockerErrorMessage: string := "error during docker compose up"

  /** Go's `strings.Join`. */
  function Join(parts: seq<string>, sep: string): string
  {
    if parts == [] then ""
    else if |parts| == 1 then parts[0]
    else parts[0] + sep + Join(parts[1..], sep)
  }

  /** Run docker with `args` in the configured directory. On failure, the
      error log record is returned as `attrs`: the arguments joined with
      spaces, then each output stream only when it is not empty. */
  method Docker(args: seq<string>, run: ProcessResult) returns (err: Outcome, attrs: seq<Attr>)
    ensures err.Pass? <==> run.status.Pass?
    ensures run.status.Pass? ==> attrs == []
    ensures run.status.Fail? ==>
      && err == Fail(Wrapped(DockerErrorMessage, run.status.error))
      && Is(err.error, run.status.error)
    ensures run.status.Fail? ==>
      && |attrs| == 1 + (if run.stdout != "" then 1 else 0) + (if run.stderr != "" then 1 else 0)
      && attrs[0] == Attr("args", Join(args, " "))
      && (run.stdout != "" ==> attrs[1] == Attr("stdout", run.stdout))
      && (run.stderr != "" ==> attrs[|attrs| - 1] == Attr("stderr", run.stderr))
  {
    attrs := [];
    if run.status.Fail? {
      attrs := [Attr("args", Join(args, " "))];
      if |run.stdout| > 0 {
        attrs := attrs + [Attr("stdout", run.stdout)];
      }
      if |run.stderr| > 0 {
        attrs := attrs + [Attr("stderr", run.stderr)];
      }
      err := Fail(Wrapped(DockerErrorMessage, run.status.error));
      return;
    }
    err := Pass;
  }

  /** Bring the compose project up: quiet progress, one `-f` per file in
      order, detached, removing orphans and always pulling images. `args` is
      the argument vector handed to docker. */
  method ComposeUp(files: seq<string>, run: ProcessResult)
    returns (args: seq<string>, err: Outcome, attrs: seq<Attr>)
    ensures args == ComposePrefix + FileFlags(files) + ComposeSuffix
    ensures |args| == 8 + 2 * |files|
    ensures args[..3] == ["compose", "--progress", "quiet"]
    ensures forall i :: 0 <= i < |files| ==> args[3 + 2 * i] == "-f" && args[4 + 2 * i] == files[i]
    ensures args[3 + 2 * |files|..] == ["up", "-d", "--remove-orphans", "--pull", "always"]
    // the result is docker's result for that vector
    ensures err.Pass? <==> run.status.Pass?
    ensures run.status.Pass? ==> attrs == []
    ensures run.status.Fail? ==>
      && err == Fail(Wrapped(DockerErrorMessage, run.status.error))
      && Is(err.error, run.status.error)
    ensures run.status.Fail? ==>
      && |attrs| == 1 + (if run.stdout != "" then 1 else 0) + (if run.stderr != "" then 1 else 0)
      && attrs[0] == Attr("args", Join(args, " "))
      && (run.stdout != "" ==> attrs[1] == Attr("stdout", run.stdout))
      && (run.stderr != "" ==> attrs[|attrs| - 1] == Attr("stderr", run.stderr))
  {
    args := ComposePrefix;
    for i := 0 to |files|
      invariant args == ComposePrefix + FileFlags(files[..i])
    {
      FileFlagsSnoc(files[..i], files[i]);
      assert files[..i + 1] == files[..i] + [files[i]];
      args := args + ["-f", files[i]];
    }
    assert files[..|files|] == files;
    args := args + ComposeSuffix;
    forall i | 0 <= i < |files|
      ensures args[3 + 2 * i] == "-f" && args[4 + 2 * i] == files[i]
    {
      FileFlagsAt(files, i);
    }
    err, attrs := Docker(args, run);
  }
}
