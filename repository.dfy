/** The `Repository` façade over the git command runner. Each operation
    issues its runner commands in order, records them, and settles like a
    promise: resolved with a value, or rejected with a reason. The decisions
    the façade makes on its own (splitting the tracking reference, whether a
    commit was found, trimming rev-parse output, skipping an empty checkout)
    are functions below; the class ties each operation to them. */
module Repositories {
  import opened Models
  import opened Git
  import opened JsString
  import opened Paths
  import opened GlobalState

  /** Why a promise was rejected: the runner's error passed on unchanged, a
      message of the façade's own, or no value at all (`reject(undefined)`). */
  datatype Rejection = Raised(error: GitError) | Message(text: string) | NoReason

  /** How a returned promise settles. */
  datatype Settled<+T> = Resolved(value: T) | Rejected(reason: Rejection)

  /** A remote and a branch on it, as named by a tracking reference. */
  datatype Upstream = Upstream(remote: string, branch: string)

  /** What a verbose run prints, one value per `console.log` call; the
      wording is left out. */
  datatype Diagnostic =
    | Cloning(branch: string, remoteUrl: string, toPath: string)
    | CheckingCommit(hash: string)
    | Fetched(repoName: string)
    | StatusResult(status: GitStatus)
    | CheckingOut(repoName: string, branch: string)
    | OnBranch(repoName: string, branch: string)
    | OnCommit(repoName: string, commit: string)
    | NoCommitGiven
    | Pulling(branch: string, remote: string)
    | ResetDone(repoName: string)
    | HeadCommit(hash: string)

  /** The error-first callback shared by every pass-through operation:
      resolve with the runner's data when it reports no error, otherwise
      reject with that very error. */
  function Settle<T>(o: Outcome<T>): (r: Settled<T>)
    ensures r.Resolved? <==> o.Ok?
    ensures r.Resolved? ==> r.value == o.data
    ensures r.Rejected? ==> r.reason == Raised(o.error)
  {
    match o
    case Ok(data) => Resolved(data)
    case Err(e) => Rejected(Raised(e))
  }

  /** The rev-parse arguments that ask whether `hash` names a commit. */
  function VerifyCommitArgs(hash: string): seq<string> {
    ["-q", "--verify", hash + "^{commit}"]
  }

  /** How `commitExists` settles on the runner's answer: rejected when the
      runner failed (with its error) or printed nothing (with no reason),
      otherwise resolved with the printed hash, trimmed. */
  function CommitFound(o: Outcome<string>): (r: Settled<string>)
    ensures r.Resolved? <==> o.Ok? && o.data != ""
    ensures o.Err? ==> r == Rejected(Raised(o.error))
    ensures o.Ok? && o.data == "" ==> r == Rejected(NoReason)
    ensures r.Resolved? ==> IsTrimmed(r.value) && r.value == Trim(o.data)
  {
    match o
    case Err(e) => Rejected(Raised(e))
    case Ok(data) => if data == "" then Rejected(NoReason) else Resolved(Trim(data))
  }

  /** Non-empty output made only of white space is truthy, so `commitExists`
      resolves, with the empty string. */
  lemma CommitFoundBlank(data: string)
    requires data != "" && AllSpace(data)
    ensures CommitFound(Ok(data)) == Resolved("")
  {
    TrimAllSpace(data);
  }

  /** How `getCurrentCommitHash` settles on the runner's answer: the error
      passed on, or the output with its surrounding white space removed;
      such a hash is its own trimming. */
  function HeadHash(o: Outcome<string>): (r: Settled<string>)
    ensures r.Resolved? <==> o.Ok?
    ensures o.Err? ==> r == Rejected(Raised(o.error))
    ensures r.Resolved? ==> IsTrimmed(r.value) && Trim(r.value) == r.value
    ensures r.Resolved? ==> exists i :: SpaceAround(o.data, i, r.value)
  {
    match o
    case Err(e) => Rejected(Raised(e))
    case Ok(data) => TrimIdempotent(data); Resolved(Trim(data))
  }

  /** Splits a tracking reference at its first `/`: the remote before it,
      which holds no `/`, and the branch after it, which may. Without a `/`
      there is no split. An empty remote (`"/x"`) or branch (`"origin/"`) is
      still a split. */
  function SplitTracking(tracking: string): (u: Option<Upstream>)
    ensures u.None? <==> '/' !in tracking
    ensures u.Some? ==> '/' !in u.value.remote && u.value.remote + "/" + u.value.branch == tracking
  {
    var i := IndexOf(tracking, '/');
    if i < 0 then None
    else
      assert tracking == tracking[..i] + "/" + tracking[i + 1..];
      Some(Upstream(tracking[..i], tracking[i + 1..]))
  }

  /** Joining a remote without `/` to any branch and splitting again gives
      back the two. Together with `SplitTracking`'s contract: the split is the
      only one whose remote holds no `/`. */
  lemma {:induction false} SplitTrackingJoin(remote: string, branch: string)
    requires '/' !in remote
    ensures SplitTracking(remote + "/" + branch) == Some(Upstream(remote, branch))
  {
    var t := remote + "/" + branch;
    IndexOfJoin(remote, '/', branch);
    assert t[..|remote|] == remote && t[|remote| + 1..] == branch;
  }

  /** The usual tracking reference splits into its remote and branch. */
  lemma SplitTrackingExample()
    ensures SplitTracking("origin/main") == Some(Upstream("origin", "main"))
  {
    assert "origin/main" == "origin" + "/" + "main";
    SplitTrackingJoin("origin", "main");
  }

  /** Only the first `/` splits: the branch keeps the later ones. */
  lemma SplitTrackingNestedBranch()
    ensures SplitTracking("origin/feature/x") == Some(Upstream("origin", "feature/x"))
  {
    assert "origin/feature/x" == "origin" + "/" + "feature/x";
    SplitTrackingJoin("origin", "feature/x");
  }

  /** An empty remote or an empty branch still splits; a string without a
      `/`, the empty one too, does not. */
  lemma SplitTrackingEdges()
    ensures SplitTracking("origin/") == Some(Upstream("origin", ""))
    ensures SplitTracking("/x") == Some(Upstream("", "x"))
    ensures SplitTracking("") == None && SplitTracking("main") == None
  {
    assert "origin/" == "origin" + "/" + "";
    SplitTrackingJoin("origin", "");
    assert "/x" == "" + "/" + "x";
    SplitTrackingJoin("", "x");
    assert '/' !in "main";
  }

  /** The message `pullOnlyFastForward` rejects with when the tracking
      reference has no `/`. */
  function CannotDetermine(tracking: string): string {
    "cannot determine remote and branch for " + tracking
  }

  /** How the first step of `pullOnlyFastForward` settles on the status
      answer: a status error passes through; a tracking reference without
      `/` (an empty one too) is rejected with the message naming it;
      otherwise it yields the upstream to pull from, split at the first `/`. */
  function UpstreamOf(st: Outcome<GitStatus>): (d: Settled<Upstream>)
    ensures d.Resolved? <==> st.Ok? && '/' in st.data.tracking
    ensures st.Err? ==> d == Rejected(Raised(st.error))
    ensures st.Ok? && '/' !in st.data.tracking ==> d == Rejected(Message(CannotDetermine(st.data.tracking)))
    ensures d.Resolved? ==> '/' !in d.value.remote && d.value.remote + "/" + d.value.branch == st.data.tracking
  {
    match st
    case Err(e) => Rejected(Raised(e))
    case Ok(status) =>
      match SplitTracking(status.tracking)
      case None => Rejected(Message(CannotDetermine(status.tracking)))
      case Some(u) => Resolved(u)
  }

  /** The one pull `pullOnlyFastForward` issues: fast-forward only. */
  function FastForwardPull(u: Upstream): Command {
    Pull(u.remote, u.branch, true)
  }

  /** `checkoutCommit` acts only on a truthy argument: present and not
      empty. */
  predicate Truthy(commit: Option<string>) {
    commit.Some? && commit.value != ""
  }

  /** A façade over the runner bound to one working copy. `issued` is every
      command sent through that runner, oldest first; `diagnostics` is what
      verbose mode printed. */
  class Repository {
    const repoName: string
    const git: Runner
    var issued: seq<Command>
    var diagnostics: seq<Diagnostic>

    /** Binds a façade to the runner for a working copy. The path is given
        already resolved; the name is its last segment. Nothing is issued. */
    constructor (resolvedPath: string, git: Runner)
      ensures repoName == Basename(resolvedPath) && '/' !in repoName
      ensures this.git == git && issued == [] && diagnostics == []
    {
      repoName := Basename(resolvedPath);
      this.git := git;
      issued := [];
      diagnostics := [];
    }

    /** Clones `remoteUrl` into `toPath` with `branch` checked out, through a
        runner of its own (`cloner`, fresh, so the clone is the only command
        it has seen). On success it resolves with a new façade bound to the
        clone; a clone error passes through. */
    static method Clone(g: Global, cloner: Runner, toPath: string, resolvedToPath: string,
                        remoteUrl: string, branch: string, git: Runner)
      returns (sent: Command, notes: seq<Diagnostic>, r: Settled<Repository>)
      ensures sent == Command.Clone(remoteUrl, toPath, branch)
      ensures notes == if g.debug then [Cloning(branch, remoteUrl, toPath)] else []
      ensures r.Resolved? <==> cloner.exec([sent]).Ok?
      ensures r.Rejected? ==> r.reason == Raised(cloner.exec([sent]).error)
      ensures r.Resolved? ==> fresh(r.value) && r.value.git == git && r.value.repoName == Basename(resolvedToPath)
      ensures r.Resolved? ==> r.value.issued == [] && r.value.diagnostics == []
    {
      var verbose := g.IsVerbose();
      notes := if verbose then [Cloning(branch, remoteUrl, toPath)] else [];
      sent := Command.Clone(remoteUrl, toPath, branch);
      match cloner.exec([sent])
      case Err(e) => r := Rejected(Raised(e));
      case Ok(_) =>
        var repo := new Repository(resolvedToPath, git);
        r := Resolved(repo);
    }

    /** `git log [fromHash..toHash]`, passed through. */
    method Log(fromHash: Option<string>, toHash: Option<string>) returns (r: Settled<LogSummary>)
      modifies this
      ensures issued == old(issued) + [Command.Log(fromHash, toHash)]
      ensures r == Settle(git.log(issued))
      ensures diagnostics == old(diagnostics)
    {
      issued := issued + [Command.Log(fromHash, toHash)];
      r := Settle(git.log(issued));
    }

    /** `git log -n <size>`, passed through; `size` is not checked. */
    method LogLast(size: int) returns (r: Settled<LogSummary>)
      modifies this
      ensures issued == old(issued) + [Command.LogLast(size)]
      ensures r == Settle(git.log(issued))
      ensures diagnostics == old(diagnostics)
    {
      issued := issued + [Command.LogLast(size)];
      r := Settle(git.log(issued));
    }

    /** Asks the runner to verify `hash` as a commit and settles as
        `CommitFound` says. */
    method CommitExists(g: Global, hash: string) returns (r: Settled<string>)
      modifies this
      ensures issued == old(issued) + [Command.RevParse(VerifyCommitArgs(hash))]
      ensures r == CommitFound(git.revparse(issued))
      ensures diagnostics == old(diagnostics) + if g.debug then [CheckingCommit(hash)] else []
    {
      var verbose := g.IsVerbose();
      if verbose {
        diagnostics := diagnostics + [CheckingCommit(hash)];
      }
      issued := issued + [Command.RevParse(VerifyCommitArgs(hash))];
      r := CommitFound(git.revparse(issued));
    }

    /** `git fetch`, passed through. */
    method Fetch(g: Global) returns (r: Settled<()>)
      modifies this
      ensures issued == old(issued) + [Command.Fetch]
      ensures r == Settle(git.exec(issued))
      ensures diagnostics == old(diagnostics) + if g.debug && r.Resolved? then [Fetched(repoName)] else []
    {
      issued := issued + [Command.Fetch];
      r := Settle(git.exec(issued));
      var verbose := g.IsVerbose();
      if verbose && r.Resolved? {
        diagnostics := diagnostics + [Fetched(repoName)];
      }
    }

    /** `git status`, passed through. */
    method Status(g: Global) returns (r: Settled<GitStatus>)
      modifies this
      ensures issued == old(issued) + [Command.Status]
      ensures r == Settle(git.status(issued))
      ensures diagnostics == old(diagnostics) + if g.debug && r.Resolved? then [StatusResult(r.value)] else []
    {
      issued := issued + [Command.Status];
      r := Settle(git.status(issued));
      var verbose := g.IsVerbose();
      if verbose && r.Resolved? {
        diagnostics := diagnostics + [StatusResult(r.value)];
      }
    }

    /** `git checkout <branch>`, passed through. */
    method CheckoutBranch(g: Global, branch: string) returns (r: Settled<()>)
      modifies this
      ensures issued == old(issued) + [Command.Checkout(branch)]
      ensures r == Settle(git.exec(issued))
      ensures diagnostics == old(diagnostics)
                             + (if g.debug then [CheckingOut(repoName, branch)] else [])
                             + (if g.debug && r.Resolved? then [OnBranch(repoName, branch)] else [])
    {
      var verbose := g.IsVerbose();
      if verbose {
        diagnostics := diagnostics + [CheckingOut(repoName, branch)];
      }
      issued := issued + [Command.Checkout(branch)];
      r := Settle(git.exec(issued));
      if verbose && r.Resolved? {
        diagnostics := diagnostics + [OnBranch(repoName, branch)];
      }
    }

    /** `git checkout <commit>` when a commit is given. An absent or empty
        commit is a successful no-op: nothing is issued. */
    method CheckoutCommit(g: Global, commit: Option<string>) returns (r: Settled<()>)
      modifies this
      ensures Truthy(commit) ==> issued == old(issued) + [Command.Checkout(commit.value)] && r == Settle(git.exec(issued))
      ensures !Truthy(commit) ==> issued == old(issued) && r == Resolved(())
      ensures diagnostics == old(diagnostics) +
                             if !Truthy(commit) then (if g.debug then [NoCommitGiven] else [])
                             else if g.debug && r.Resolved? then [OnCommit(repoName, commit.value)]
                             else []
    {
      var verbose := g.IsVerbose();
      if Truthy(commit) {
        issued := issued + [Command.Checkout(commit.value)];
        r := Settle(git.exec(issued));
        if verbose && r.Resolved? {
          diagnostics := diagnostics + [OnCommit(repoName, commit.value)];
        }
      } else {
        if verbose {
          diagnostics := diagnostics + [NoCommitGiven];
        }
        r := Resolved(());
      }
    }

    /** Reads the status, splits its tracking reference at the first `/`
        and pulls that branch from that remote, fast-forward only. A status
        error, or a tracking reference with no `/`, settles the promise
        before any pull is issued. */
    method PullOnlyFastForward(g: Global) returns (r: Settled<()>)
      modifies this
      ensures var d := UpstreamOf(git.status(old(issued) + [Command.Status]));
              if d.Rejected? then issued == old(issued) + [Command.Status] && r == Rejected(d.reason)
              else issued == old(issued) + [Command.Status, FastForwardPull(d.value)] && r == Settle(git.exec(issued))
      ensures var st := git.status(old(issued) + [Command.Status]);
              var d := UpstreamOf(st);
              diagnostics == old(diagnostics)
                             + (if g.debug && st.Ok? then [StatusResult(st.data)] else [])
                             + (if g.debug && d.Resolved? then [Pulling(d.value.branch, d.value.remote)] else [])
    {
      var st := Status(g);
      if st.Rejected? {
        r := Rejected(st.reason);
        return;
      }
      var status := st.value;
      var i := IndexOf(status.tracking, '/');
      if i < 0 {
        r := Rejected(Message(CannotDetermine(status.tracking)));
        return;
      }
      var remote := status.tracking[..i];
      var branch := status.tracking[i + 1..];
      var verbose := g.IsVerbose();
      if verbose {
        diagnostics := diagnostics + [Pulling(branch, remote)];
      }
      issued := issued + [Command.Pull(remote, branch, true)];
      r := Settle(git.exec(issued));
    }

    /** `git reset --hard`, passed through. */
    method ResetHard(g: Global) returns (r: Settled<()>)
      modifies this
      ensures issued == old(issued) + [Command.ResetHard]
      ensures r == Settle(git.exec(issued))
      ensures diagnostics == old(diagnostics) + if g.debug && r.Resolved? then [ResetDone(repoName)] else []
    {
      issued := issued + [Command.ResetHard];
      r := Settle(git.exec(issued));
      var verbose := g.IsVerbose();
      if verbose && r.Resolved? {
        diagnostics := diagnostics + [ResetDone(repoName)];
      }
    }

    /** `git rev-parse HEAD`, settled as `HeadHash` says. */
    method GetCurrentCommitHash(g: Global) returns (r: Settled<string>)
      modifies this
      ensures issued == old(issued) + [Command.RevParse(["HEAD"])]
      ensures r == HeadHash(git.revparse(issued))
      ensures diagnostics == old(diagnostics) + if g.debug && r.Resolved? then [HeadCommit(r.value)] else []
    {
      issued := issued + [Command.RevParse(["HEAD"])];
      r := HeadHash(git.revparse(issued));
      var verbose := g.IsVerbose();
      if verbose && r.Resolved? {
        diagnostics := diagnostics + [HeadCommit(r.value)];
      }
    }
  }
}
