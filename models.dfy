/** The records the repository façade hands back: the shapes of a `git log`
    summary and of a `git status` snapshot. They are produced by the command
    runner and passed on unchanged. */
module Models {

  datatype Option<+T> = None | Some(value: T)

  /** One commit of a `git log` listing. `date` is kept in git's own text
      format. */
  datatype LogEntry = LogEntry(
    authorEmail: string,
    authorName: string,
    date: string,
    hash: string,
    message: string)

  /** A `git log` listing, most recent commit first, with that most recent
      commit and the number of commits. `latest` is `None` for an empty
      listing. */
  datatype LogSummary = LogSummary(all: seq<LogEntry>, latest: Option<LogEntry>, total: int)

  /** The state of one changed path: its two-letter index and working-tree
      codes. */
  datatype FileStatus = FileStatus(path: string, index: string, workingDir: string)

  /** A `git status` snapshot. `tracking` is the upstream as `remote/branch`,
      or empty when the branch has none. */
  datatype GitStatus = GitStatus(
    ahead: int,
    behind: int,
    conflicted: seq<string>,
    created: seq<string>,
    current: string,
    deleted: seq<string>,
    files: seq<FileStatus>,
    modified: seq<string>,
    notAdded: seq<string>,
    renamed: seq<string>,
    tracking: string)
}
