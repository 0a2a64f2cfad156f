# git-helper in Dafny

A model of git-helper's `Repository` façade and its `Global` verbose switch.
The façade is a promise-based wrapper around a git command runner. It can
clone, log, check whether a commit exists, fetch, report status, check out a
branch or a commit, pull fast-forward only, hard-reset, and read the current
commit hash.

The runner is an oracle. Each request is a `Git.Command` value. The runner's
answer is a `Git.Outcome`: `Err(error)` or `Ok(data)`. A `Git.Runner` holds one
oracle per kind of answer: parsed status, parsed log, rev-parse text, and
completion only. Each oracle maps the history of commands sent through that
runner, with the command being answered last, to its outcome. A
`Repositories.Repository` object records every command it sends in `issued`.
That makes "no pull is sent" and "no checkout is sent" statable.

Each operation settles like the promise it returns, as a
`Repositories.Settled` value. It either resolves with a value, or rejects with
a `Rejection`: the runner's error unchanged, a message of the façade's own, or
no value at all.

Verbose mode is modelled by its effect. Each `console.log` call the source
makes when the switch is on becomes one `Diagnostic` value. Instance
operations append it to the object's `diagnostics`; the static `Clone`, which
prints before any object exists, returns its note in the `notes`
out-parameter, and the façade it creates starts with empty `diagnostics`.
Every operation's result is tied to a function that does not read the switch. So the switch decides only what is printed, never
what is returned.

The source keeps the switch in a private static instance. Dafny has no static
mutable state, so that one `GlobalState.Global` object is passed to every
operation that reads it.

The decisions the façade makes on its own are pure functions with their own
contracts:
- `SplitTracking` cuts the tracking reference at its first `/`.
- `UpstreamOf` decides, from the status answer, whether a pull follows.
- `CommitFound` is the `err || !data` test of `commitExists`.
- `HeadHash` trims the rev-parse output.
- `Paths.Basename` gives the repository name.

The JavaScript built-ins these decisions use (`indexOf`, `trim`) are modelled
in `JsString`. `trim` removes the characters of ECMAScript's WhiteSpace and
LineTerminator productions.

`commitExists` tests the untrimmed output (src/repository.ts:66), so output
made only of white space resolves with the empty string; `CommitFoundBlank`
states this.

## Model

| member | source | states |
|---|---|---|
| JsString.IndexOf | src/repository.ts:132 | `indexOf` gives -1 exactly when the character is absent; otherwise the position of its first occurrence |
| JsString.IndexOfJoin | src/repository.ts:132 | in `a + [c] + b` with no `c` in `a`, the first `c` is at position `|a|` |
| JsString.Trim | src/repository.ts:66 | `trim` returns a slice of its input that neither starts nor ends with white space; everything cut off on either side is white space |
| JsString.TrimUnique | src/repository.ts:172 | any decomposition of a string as white space, a trimmed middle, then white space has `Trim` of the string as its middle |
| JsString.TrimIdempotent | src/repository.ts:172 | trimming a trimmed string changes nothing |
| JsString.TrimAllSpace | src/repository.ts:66 | a string of white space only trims to the empty string |
| JsString.TrimEmptyIff | src/repository.ts:66 | `trim` gives the empty string exactly when the input is all white space |
| Paths.AfterLastSeparator | src/repository.ts:29 | the part after the last `/` holds no `/` and is a suffix that is either the whole string or preceded by `/` |
| Paths.Basename | src/repository.ts:29 | the repository name holds no `/` and is a suffix of the path without its trailing separators that is either all of it or preceded by `/`: its whole last segment |
| Paths.BasenameOfChild | src/repository.ts:29 | the name of `dir/name` is `name` for every non-empty `name` without `/` |
| Paths.BasenameOfResolved | src/repository.ts:29 | a resolved path other than the root is its directory part, then `/`, then its non-empty name; the root's name is empty |
| Paths.BasenameExamples | src/repository.ts:29 | `/a/b/myrepo` is named `myrepo` and `/tmp/x` is named `x` |
| Paths.BasenameOfRoot | src/repository.ts:29 | `/` has the empty name |
| GlobalState.Global.constructor | src/global.ts:11-14 | the switch starts off |
| GlobalState.Global.IsVerbose | src/global.ts:3-5 | reports the switch and changes no state |
| GlobalState.Global.EnableVerboseMode | src/global.ts:7-9 | the switch is on afterwards whatever it was before, so a second call changes nothing and no call turns it off |
| Repositories.Settle | src/repository.ts:47-48 | a pass-through operation resolves exactly when the runner reports no error, with the runner's data; otherwise it rejects with that same error |
| Repositories.CommitFound | src/repository.ts:62-69 | `commitExists` rejects with the runner's error or, on empty output, with no value; otherwise it resolves with the trimmed output |
| Repositories.CommitFoundBlank | src/repository.ts:66 | non-empty output of white space only resolves, with the empty string |
| Repositories.HeadHash | src/repository.ts:166-178 | `getCurrentCommitHash` resolves exactly when rev-parse succeeds, with a value that neither starts nor ends with white space, is its own trimming, and is a slice of the output with only white space around it; errors pass through |
| Repositories.SplitTracking | src/repository.ts:132-138 | there is no split exactly when the tracking reference has no `/`; otherwise remote + `/` + branch is the reference and the remote holds no `/` |
| Repositories.SplitTrackingJoin | src/repository.ts:132-138 | splitting `remote/branch` with a `/`-free remote gives back that remote and branch, so the split is the only one with a `/`-free remote |
| Repositories.SplitTrackingExample | src/repository.ts:132-138 | `origin/main` splits into `origin` and `main` |
| Repositories.SplitTrackingNestedBranch | src/repository.ts:132-138 | `origin/feature/x` splits into `origin` and `feature/x`: only the first `/` splits |
| Repositories.SplitTrackingEdges | src/repository.ts:132-138 | `origin/` and `/x` still split, with an empty branch or remote; `""` and `main` do not split |
| Repositories.UpstreamOf | src/repository.ts:130-138 | after `status`, a pull follows exactly when status succeeded and its tracking reference has a `/`; a status error passes through; no `/` rejects with `cannot determine remote and branch for <tracking>` |
| Repositories.Repository.constructor | src/repository.ts:27-30 | the name is the basename of the resolved path and holds no `/`; nothing is sent |
| Repositories.Repository.Clone | src/repository.ts:11-22 | sends one clone of the branch; resolves exactly when it succeeds, with a fresh façade bound to the target path; otherwise rejects with the runner's error; notes the clone when verbose, whatever the outcome |
| Repositories.Repository.Log | src/repository.ts:32-52 | sends one log over the optional range and passes its answer through |
| Repositories.Repository.LogLast | src/repository.ts:54-60 | sends one `log -n size` and passes its answer through |
| Repositories.Repository.CommitExists | src/repository.ts:62-69 | sends `rev-parse -q --verify <hash>^{commit}` and settles as `CommitFound`; notes the hash when verbose, whatever the outcome |
| Repositories.Repository.Fetch | src/repository.ts:71-82 | sends one fetch and passes its answer through; prints on success when verbose |
| Repositories.Repository.Status | src/repository.ts:84-95 | sends one status and passes its answer through; prints the snapshot on success when verbose |
| Repositories.Repository.CheckoutBranch | src/repository.ts:97-109 | sends one checkout of the branch and passes its answer through; when verbose, notes the checkout whatever the outcome and the branch again after a success, in that order |
| Repositories.Repository.CheckoutCommit | src/repository.ts:111-127 | an absent or empty commit resolves and sends nothing; otherwise exactly one checkout of the commit is sent and its answer passed through |
| Repositories.Repository.PullOnlyFastForward | src/repository.ts:129-151 | sends status, then only if `UpstreamOf` resolves exactly one `--ff-only` pull of the derived remote and branch, whose answer is passed through; otherwise rejects as `UpstreamOf` says with no pull sent |
| Repositories.Repository.ResetHard | src/repository.ts:153-164 | sends one hard reset and passes its answer through; prints on success when verbose |
| Repositories.Repository.GetCurrentCommitHash | src/repository.ts:166-178 | sends `rev-parse HEAD` and settles as `HeadHash`; prints the hash on success when verbose |

## Left out

- Running git: process spawning, git's text output and its parsing into log and status records belong to the runner, which is an oracle here.
- Network and file-system effects of `clone`, `fetch`, `pull`, `checkout` and `reset` on the working copy are not modelled; only the commands sent and their outcomes are.
- `Paths.Basename` splits only at `/`, as Node's POSIX `path` does; the `\` separator and drive letters of `path.win32`, which Node uses on Windows, are not modelled.
- The order of printed lines relative to the commands sent is not modelled: printed lines and sent commands are kept in separate sequences, so a contract says whether a line is printed, and the order among printed lines, but not whether it comes before or after a command.
- `path.resolve` depends on the current directory. The constructor and `Clone` take the already-resolved path as a parameter, and `Paths.Basename` is modelled over that path.
- The default constructor argument `'./'` is not modelled separately; it is one more path that the caller resolves.
- Promises and their asynchrony: each operation is one sequential step that settles once. Concurrent use of one working copy is not modelled.
- The text printed in verbose mode is left out; only which diagnostic is printed, and when, is modelled.
- The log format fields and the field splitter constant of `log` are not part of the `Log` command, because they only shape the runner's parsing.
- `Repositories.Repository.LogLast` takes `size` as an unbounded integer, not a JavaScript number: non-integer, NaN and infinite sizes, which the source passes on as text (`-n 2.5`, `-n NaN`), cannot be expressed, and turning the number into a string (`size + ''`) is left out.
- Strings are sequences of Unicode scalar values, while JavaScript strings are UTF-16 code units: a character outside the Basic Multilingual Plane is one element here and two in JavaScript, and lone surrogates cannot be represented. `JsString.IndexOf` positions differ from JavaScript's for such strings; the slices taken name the same text.
- JavaScript values that are not strings (an `undefined` or `null` where the types promise a string from the runner) are not modelled; empty runner output is the empty string.
- The module-level `enableVerboseMode` in `src/index.ts` only calls `Global.enableVerboseMode`, which is modelled.
