/** Shared vocabulary of the compose-watcher model: the configuration record,
    the errors and outcomes the collaborators report, the authentication and
    option records handed to the version-control library, and the calls the
    watcher makes on its collaborators. */
module Types {

  /** A commit, identified by its hash. Commits are only ever compared by
      hash, so equality on this record is the only operation the model uses. */
  datatype CommitRef = CommitRef(hash: string)

  /** The errors the core distinguishes. The two sentinels of the
      version-control library get their own constructors; every other error
      of a collaborator is an opaque `Failure`; `Wrapped` is an error that
      carries another one as its cause (Go's `%w`). */
  datatype Error =
    | AlreadyUpToDate
    | TargetDirNotEmpty
    | Failure(message: string)
    | Wrapped(message: string, cause: Error)

  /** Go's `errors.Is`: does `target` occur anywhere in the wrap chain of `err`? */
  predicate Is(err: Error, target: Error)
  {
    err == target || (err.Wrapped? && Is(err.cause, target))
  }

  /** The result of a call that returns only an error (nil is `Pass`). */
  datatype Outcome = Pass | Fail(error: Error)

  /** The result of a call that returns a value or an error. */
  datatype Result<T> = Ok(value: T) | Err(error: Error)

  /** The root command's settings, as set by the command line or environment. */
  datatype Config = Config(
    url: string,
    directory: string,
    username: string,
    password: string,
    key: string,
    branch: string)

  /** The authentication attached to clone and pull options: none, an SSH key
      loaded for a user with a passphrase, or HTTP basic authentication. */
  datatype Auth =
    | NoAuth
    | Ssh(user: string, keyFile: string, passphrase: string)
    | Basic(username: string, password: string)

  /** The fields of the library's clone options that the core sets. */
  datatype GitCloneOptions = GitCloneOptions(url: string, auth: Auth)

  /** The fields of the library's pull options that the core sets. */
  datatype GitPullOptions = GitPullOptions(remoteName: string, auth: Auth)

  /** One call the core makes on a collaborator, in the order it is made.
      `Refresh` and `Reconcile` are the two deployment steps (compose pull,
      then compose up). */
  datatype Action =
    | PlainClone(directory: string, cloneOptions: GitCloneOptions)
    | PlainOpen(directory: string)
    | OpenWorktree
    | Checkout(branch: string, force: bool)
    | LookupRemote(name: string)
    | Fetch(refSpecs: seq<string>)
    | Pull(pullOptions: GitPullOptions)
    | ReadHead
    | Refresh
    | Reconcile
  {
    predicate IsDeployment() { Refresh? || Reconcile? }
  }

  /** What an error-returning step of the core did: the error it returned and
      the collaborator calls it made. */
  datatype Effect = Effect(status: Outcome, actions: seq<Action>)

  /** The deployment steps of a trace, in order, with every other call dropped. */
  function Deployments(actions: seq<Action>): seq<Action>
  {
    if actions == [] then []
    else (if actions[0].IsDeployment() then [actions[0]] else []) + Deployments(actions[1..])
  }

  /** A trace with no deployment step. */
  predicate Quiet(actions: seq<Action>)
  {
    Refresh !in actions && Reconcile !in actions
  }

  /** A trace has no deployment step exactly when it is quiet. */
  lemma {:induction false} QuietIffNoDeployments(actions: seq<Action>)
    ensures Deployments(actions) == [] <==> Quiet(actions)
  {
    if actions != [] {
      assert actions == [actions[0]] + actions[1..];
      QuietIffNoDeployments(actions[1..]);
    }
  }

  lemma {:induction false} DeploymentsAppend(a: seq<Action>, b: seq<Action>)
    ensures Deployments(a + b) == Deployments(a) + Deployments(b)
  {
    if a == [] {
      assert a + b == b;
    } else {
      assert (a + b)[0] == a[0];
      assert (a + b)[1..] == a[1..] + b;
      DeploymentsAppend(a[1..], b);
      var head := if a[0].IsDeployment() then [a[0]] else [];
      assert Deployments(a + b) == head + Deployments(a[1..] + b);
      assert head + (Deployments(a[1..]) + Deployments(b)) == (head + Deployments(a[1..])) + Deployments(b);
    }
  }
}
