/** The boundary with the git command runner. Every request the façade makes
    is a `Command`; the runner's answer is an `Outcome`: an error, or the
    parsed data. The runner itself (process spawning, git's output and its
    parsing) is an oracle: a function from the history of commands issued
    through one runner, the one being answered last, to its outcome. */
module Git {
  import opened Models

  /** The error value the runner reports; always truthy. */
  datatype GitError = GitError(message: string)

  datatype Command =
    | Clone(remoteUrl: string, toPath: string, branch: string)  // git clone <url> <path> --branch <branch>
    | Log(from: Option<string>, to: Option<string>)            // git log [from..to], fixed field format
    | LogLast(size: int)                                       // git log -n <size>
    | RevParse(args: seq<string>)                              // git rev-parse <args>
    | Fetch                                                    // git fetch
    | Status                                                   // git status
    | Checkout(target: string)                                 // git checkout <target>
    | Pull(remote: string, branch: string, ffOnly: bool)      // git pull <remote> <branch> [--ff-only]
    | ResetHard                                                // git reset --hard

  /** What the runner's callback receives: an error, or no error and data. */
  datatype Outcome<+T> = Ok(data: T) | Err(error: GitError)

  /** An oracle answers the last command of the history it is given. */
  type Oracle<T> = seq<Command> -> Outcome<T>

  /** A runner bound to one working copy, one oracle per kind of answer:
      parsed status, parsed log, rev-parse text, and completion only. */
  datatype Runner = Runner(
    status: Oracle<GitStatus>,
    log: Oracle<LogSummary>,
    revparse: Oracle<string>,
    exec: Oracle<()>)
}
