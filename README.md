# compose-watcher, modelled in Dafny

compose-watcher is a continuous-deployment watcher. It follows one branch of a
git repository and, when the tip of that branch changes, runs `docker compose
pull` followed by `docker compose up` in the local checkout. This project
models its decision logic and proves properties of it:

- **Option builders** (`Utils.CloneOptions`, `Utils.PullOptions`): which
  authentication is chosen. An SSH key wins and uses the password as its
  passphrase. Basic authentication needs both a user name and a password.
  Otherwise no authentication is set.
- **Clone** (`Utils.GitClone`): clone, open the worktree, and force-checkout
  the branch. If that checkout fails, look up `origin`, fetch
  `refs/heads/<b>:refs/heads/<b>` once, and retry the checkout once.
- **Pull** (`Utils.GitPull`): "already up to date" counts as success.
- **Docker** (`Utils.Docker`, `Utils.ComposeUp`): the exact `docker compose`
  argument vector, and the error log record on failure.
- **watch** (`Watch`): a setup phase whose failures are fatal, then a polling
  loop over ticks. The loop (`Watch.Loop`) is written once for any tick
  handler and used with `Watch.TickStep`. The loop's one piece of mutable state is the remembered
  commit, a field of the class `Watch.Watcher`.
- **check** (`Check`): a one-shot before/after comparison of HEAD that deploys
  when forced or when HEAD moved.

Every collaborator is an input. This covers the git library, loading the SSH
key file, running the docker binary, and reading HEAD. Each call the code makes
gets its own outcome in a "script" record (`CloneScript`, `PullScript`,
`SetupScript`, `TickScript`, `CheckScript`). The ticker and the cancellation
context become a finite sequence of `Tick`/`Cancel` events. Each operation
returns the error it would return and the trace of collaborator calls it made
(`Types.Action`). `Refresh` stands for compose pull and `Reconcile` for compose
up. The imperative parts are methods, each tied to a specification function:

- `Watch.Watcher.Tick` and `Watch.Watcher.Watch` update `commit` and `trace`.
- `Watch.RunSetup`, `Watch.Run` and `Check.Run` are straight-line code with
  early returns.
- `Utils.ComposeUp` builds the argument vector in a loop.

Behaviour worth noting, as the code has it:

- The watch baseline is HEAD as read *before* the initial pull
  (pkg/cmd/watch.go:61 is before :67). It is not the tip after the first
  synchronisation.
- The watch setup checks out the branch only inside the optional clone
  (pkg/cmd/utils.go:95-121). There is no separate checkout after opening the
  working copy.
- An SSH key and basic credentials are not mutually exclusive in the builders.
  When both are set, the key wins (pkg/cmd/utils.go:26-33).
- The fetch fallback compares the error with the sentinel by equality
  (pkg/cmd/utils.go:112). The pull and the clone-on-start step use `errors.Is`,
  which looks through the wrap chain (pkg/cmd/utils.go:134,
  pkg/cmd/watch.go:45). The model keeps this difference, and
  `Utils.ToleranceDiffers` states it.
- The fallback fetch passes only the refspec (pkg/cmd/utils.go:109-111). It
  sets no authentication, unlike the clone and the pull, which pass the built
  options. This is why the `Fetch` call in the model carries only refspecs.

## Model

| member | source | states |
|---|---|---|
| `Utils.CloneOptions` | pkg/cmd/utils.go:21-41 | Fails exactly when a key is set and loading it fails, with that error. Otherwise keeps the URL and follows the authentication rule: SSH with user `git`, the key and the password as passphrase iff a key is set; basic iff no key and both user name and password are non-empty; otherwise none |
| `Utils.PullOptions` | pkg/cmd/utils.go:43-63 | The same failure condition and authentication rule, with remote `origin` |
| `Utils.OptionsAgree` | pkg/cmd/utils.go:21-63 | For the same configuration and key-loading result, clone and pull options fail together and, when they succeed, choose the same authentication |
| `Utils.KeyIgnoresUsername` | pkg/cmd/utils.go:26-32 | With a key set, changing the user name changes neither set of options |
| `Utils.RefSpec` | pkg/cmd/utils.go:110 | The fallback refspec maps the remote branch reference `refs/heads/<b>` to the local reference of the same name |
| `Utils.RefSpecInjective` | pkg/cmd/utils.go:110 | The fallback refspec determines the branch: different branches give different refspecs |
| `Utils.CheckoutBranch` | pkg/cmd/utils.go:95-123 | The first call is the forced checkout of `refs/heads/<b>`, and there are at most four calls. A first checkout that works succeeds with no remote lookup and no fetch. The only fetch is of the branch refspec. The result is the outcome of the last call made: the lookup's, the fetch's, the first checkout's when it is the only call, otherwise the retry's |
| `Utils.CheckoutLooksUpOrigin` | pkg/cmd/utils.go:101-107 | A failed first checkout is followed by the lookup of `origin`. If that lookup fails, its error is the result and the calls are exactly the checkout and the lookup, with no fetch |
| `Utils.CheckoutBranchCounts` | pkg/cmd/utils.go:101-123 | At most one fetch. A second checkout happens exactly when the first failed, origin was found and the fetch result is tolerated, and it is then the last call |
| `Utils.FetchTolerated` | pkg/cmd/utils.go:109-115 | The fallback goes on to its retry after a fetch that succeeded or returned exactly the "already up to date" sentinel |
| `Utils.GitClone` | pkg/cmd/utils.go:79-124 | An option, clone or worktree error is returned with no checkout made. Otherwise the result and calls are those of the checkout with fallback, after clone and worktree. Success iff prepared and (first checkout works, or origin found, fetch tolerated and retry works). Only clone calls, never a deployment |
| `Utils.CheckoutFirstTryNoFetch` | pkg/cmd/utils.go:101-123 | When the first checkout works: success, exactly one checkout, no remote lookup and no fetch |
| `Utils.FallbackRetriesOnce` | pkg/cmd/utils.go:103-120 | A failed first checkout with a tolerated fetch (success or "already up to date") gives exactly one fetch, of `refs/heads/<b>:refs/heads/<b>`, then exactly one retry as the last call. The retry's outcome is the result |
| `Utils.FallbackFetchErrorNoRetry` | pkg/cmd/utils.go:109-115 | Any other fetch error is the result. Exactly one fetch and no retry |
| `Utils.PullTolerated` | pkg/cmd/utils.go:133-137 | A pull counts as successful when it succeeded or its error has "already up to date" anywhere in its wrap chain |
| `Utils.ToleranceDiffers` | pkg/cmd/utils.go:112 | The sentinel itself is tolerated by both the fetch fallback and the pull. Wrapped, only the pull tolerates it. An error whose wrap chain lacks the sentinel is tolerated by neither. No wrapped error passes the fetch check, and wrapping never changes what the pull tolerates |
| `Utils.GitPull` | pkg/cmd/utils.go:126-140 | An option error is returned with no pull made. Otherwise exactly one pull with the built options. Success iff the pull succeeds or reports "already up to date" anywhere in its wrap chain; otherwise the pull's error |
| `Utils.FileFlagsAt` | pkg/cmd/utils.go:144-146 | The i-th compose file appears as `-f` at position 2i and the file at 2i+1 of the file flags |
| `Utils.Docker` | pkg/cmd/utils.go:152-174 | Success iff the command succeeded, with no log record. On failure: the error wraps the command's error (`errors.Is` finds it). The record holds `args` joined by spaces first, `stdout` next only when non-empty, and `stderr` last only when non-empty |
| `Utils.ComposeUp` | pkg/cmd/utils.go:142-150 | The argument vector is `compose --progress quiet`, then one `-f <file>` per file in order, then `up -d --remove-orphans --pull always`. Its length is 8 + 2·\|files\|. The result is docker's result for that vector: success iff the command succeeded, otherwise the wrapped command error, with the log record of `args`, `stdout` only when non-empty, and `stderr` last only when non-empty |
| `Watch.CloneTolerated` | pkg/cmd/watch.go:43-48 | Setup goes on past the clone when the flag is off, the clone succeeded, or its error has "target directory not empty" anywhere in its wrap chain |
| `Watch.SetupClone` | pkg/cmd/watch.go:43-49 | Without the clone flag no clone call is made. With it, only clone calls. Never a deployment |
| `Watch.SetupPhase` | pkg/cmd/watch.go:42-80 | A clone error not containing "target directory not empty" is fatal with the clone's calls only. A tolerated clone goes on to open the working copy. Setup succeeds iff every step run succeeds. The baseline is the HEAD read of setup. No deployment without onStart; with it, compose pull then compose up end the setup |
| `Watch.SetupFailsAtFirstError` | pkg/cmd/watch.go:51-80 | Each failure of open, worktree, baseline read, initial pull, compose pull or compose up is the setup's error. Nothing is deployed when an earlier step failed, no pull happens when the baseline read fails, and compose up is not run when compose pull failed |
| `Watch.BaselineReadBeforePull` | pkg/cmd/watch.go:61-69 | Once open, the setup's calls begin with the clone calls, open, worktree and a read of HEAD, then the initial pull. No earlier call is a pull |
| `Watch.TickStep` | pkg/cmd/watch.go:90-117 | A tick starts with the pull. A failed pull or tip read, or an unchanged tip, leaves the commit and deploys nothing. A new tip is remembered, then compose pull runs, then compose up only if compose pull worked. The commit is only ever taken from a successful pull and read |
| `Watch.Loop` | pkg/cmd/watch.go:88-124 | The for/select loop: a cancellation returns its error with no further call; a tick is handled and the loop goes on from the commit it leaves. Its properties are `Watch.LoopExits` and `Watch.LoopAppend` |
| `Watch.Poll` | pkg/cmd/watch.go:88-124 | The loop of the watch command, with every tick handled by `Watch.TickStep`. `Watch.Watcher.Watch` computes it |
| `Watch.LoopExits` | pkg/cmd/watch.go:88-124 | The loop only returns the error of a cancellation that occurred. Without any cancellation it is still polling. A cancellation first stops it at once with the context's error, before any call |
| `Watch.LoopAppend` | pkg/cmd/watch.go:88-124 | After a run of ticks the loop goes on from the commit they left. Its calls are those of the ticks followed by those of the rest |
| `Watch.WatchSpec` | pkg/cmd/watch.go:36-125 | A setup failure is returned and polling never starts. The only errors ever returned are setup errors and cancellation errors. The setup's calls come first |
| `Watch.Watcher.Tick` | pkg/cmd/watch.go:90-117 | The new commit and the appended calls are those of `TickStep` from the old commit |
| `Watch.Watcher.Watch` | pkg/cmd/watch.go:87-124 | The loop's exit, final commit and appended calls are those of `Poll` from the old commit |
| `Watch.RunSetup` | pkg/cmd/watch.go:42-80 | The imperative setup computes exactly `SetupPhase` |
| `Watch.Run` | pkg/cmd/watch.go:36-125 | The command's exit and calls are exactly `WatchSpec` |
| `Watch.StableTipIsQuiet` | pkg/cmd/watch.go:96-105 | Ticks whose tip, whenever read after a successful pull, equals the remembered commit never change it and never deploy |
| `Watch.FailedTicksKeepCommit` | pkg/cmd/watch.go:91-100 | Ticks whose pull or tip read fails never change the commit, never deploy and never end the loop |
| `Watch.ChangeDeploysOnce` | pkg/cmd/watch.go:107-117 | A tick that sees a new tip, with working compose pull, followed by ticks that only see that tip: the deployments are exactly compose pull then compose up, and the new tip is remembered |
| `Watch.SingleChangeDeploysOnce` | pkg/cmd/watch.go:88-117 | If the tip moves from a to b once, the deployments over the whole run are exactly one compose pull then one compose up. The remembered commit ends as b and the loop is still polling |
| `Watch.StaleBaselineDeploys` | pkg/cmd/watch.go:61-110 | If the tip that the first tick with a successful pull reads differs from the pre-pull baseline (as it does when the initial pull moved HEAD), that tick takes the new tip as the commit and runs compose pull, within the polling loop's calls, which follow the setup's |
| `Watch.QuietWatch` | pkg/cmd/watch.go:72-117 | Without onStart and with the tip read after every successful pull equal to the baseline, the whole run deploys nothing and the commit stays the baseline |
| `Check.ShouldDeploy` | pkg/cmd/check.go:63 | The deploy decision: forced, or HEAD moved |
| `Check.CheckSpec` | pkg/cmd/check.go:31-76 | Open, worktree and first read errors are returned before any pull. Pull and second read errors are returned with no deployment. HEAD is read, pulled, then read again. A deployment runs iff everything succeeded and (forced or HEAD moved). Compose up runs only after compose pull worked, and either error is returned. Unforced and unchanged gives nil. Success iff every step run succeeded |
| `Check.Run` | pkg/cmd/check.go:31-76 | The imperative command computes exactly `CheckSpec` |
| `Check.ForcedCheckDeploys` | pkg/cmd/check.go:63-73 | With HEAD unchanged, a forced check deploys and an unforced one succeeds without deploying |
| `Check.RepeatedCheckDeploysAtMostOnce` | pkg/cmd/check.go:47-63 | Over the deployment steps: an unforced check deploys iff it synced and its pull moved HEAD, and an unforced check whose pull leaves HEAD where it was never deploys, whatever HEAD it starts from |

## Left out

- The git library, SSH key parsing, `exec.Command` and reading HEAD
  (`Head` then `CommitObject`): foreign calls, modelled as outcomes in the
  script records. `getCommit` is one read whose outcome is a commit or an error.
- Utils.Docker: does not record the working directory (`cmd.Dir`), the binary
  name or the byte buffers. These are process I/O; only the arguments, the
  exit status and the two captured strings are modelled.
- Logging through `slog`, `logInfo` and password redaction: output side
  effects through a foreign library. The only log content modelled is
  docker's failure record.
- The ticker, the polling interval, `select` and `context.WithCancel`:
  timing and concurrency. They are replaced by the event sequence, which also
  fixes the order in which a simultaneous tick and cancellation are taken.
  The model assumes a positive interval. `time.NewTicker` panics on a
  non-positive one (pkg/cmd/watch.go:87), so with `--interval 0` the real
  command runs the whole setup, including an onStart deployment, and then
  crashes instead of polling.
- The failed type assertion on the root command (pkg/cmd/watch.go:37-40,
  pkg/cmd/check.go:32-35): command-framework wiring that always supplies the
  root command.
- Command-line wiring and flag constraints (pkg/cmd/cmd.go, pkg/cmd/init.go,
  cmd/compose-watcher/main.go): the URL and directory are required, user name
  and password are required together, user name and key are exclusive, and the
  branch defaults to "main". The command library enforces these. The option
  builders do not rely on them, so no precondition states them. `init` only
  calls the clone, which `Utils.GitClone` models.
- `composePull` is not defined in the modelled files, and `composeUp` is called
  without its file list in pkg/cmd/watch.go:77 and pkg/cmd/check.go:68. In the
  watch and check models both are opaque deployment steps with outcomes.
  `Utils.ComposeUp` models the argument builder on its own.
- `errors.Is` is modelled over single-cause wrap chains only. Custom `Is`
  methods and multi-error joins are not modelled.
- Watch.Run: when the events run out without a cancellation, it reports that
  it is still polling. The real loop never ends on its own.
