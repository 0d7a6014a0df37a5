# git-ci-hub-lab: git scopes and the push, delete and attach commands

This project is a Dafny model of the core of the git-ci-hub-lab command-line tools.

It covers the four git context managers of `lib/common.py` and three commands built on them.

**Context managers** (`lib/common.py`):
- `git_config` temporarily overrides git configuration options.
- `git_signing` sets up an ssh signing key for the duration of a block.
- `git_keep_head` stashes the work area and keeps HEAD.
- `git_ref_exists_and_unique` makes a tag or branch name exist exactly once, as the requested kind, for the duration of a block.
- `git_remote` adds a temporary remote.

**Commands:**
- `g-push-rev` pushes a revision, optionally signed, to a remote under a tag or branch.
- `g-delete-ref` deletes a tag or branch of a remote.
- `gl-attach-job` follows a GitLab CI job and prints its trace.

**How state is represented.**
- The repository and the process are one immutable `GitRepo.State`. It holds:
  - the configuration
  - tags, branches, HEAD and commits
  - the index, the files and the stash
  - remotes
  - the environment
  - the temporary key files
  - a log of what reached remotes
  - a log of info and warning lines
- Every git call is a pure transition. It returns `Ok(state)` or `Raised(state, error)`.
  - A raised error keeps the state as it was when the call failed, because Python exceptions roll nothing back.
- Each call has two ways to fail:
  - the failure git itself would report, such as deleting a missing tag or deleting the checked-out branch;
  - membership of the call in a set `faults` of failing calls.
- Each context manager is a function that takes its body as a `State -> Outcome<State>` parameter.
  - `Outcome.Finally` is Python's `finally`: a cleanup that raises replaces the body's outcome.

**Configuration.**
- The git configuration is a map from (scope, section) to options. Each option holds its non-empty list of values.
- An override is the Python dict flattened in iteration order.

**The central properties:**
- The `git_config` round trip (`GitConfig.RestoreUndoes`):
  - restoring the snapshot gives back the configuration exactly;
  - this holds whatever happened to the touched options in between.
- Each scope leaves no trace on the state it guards:
  - `ConfigScope.ConfigScopeRestores`
  - `SigningScope.SshSigningRestores`
  - `HeadScope.HeadScopeRestores`
  - `RefScope.RefScopeRestores`
  - `RemoteScope.RemoteScopeCleans`
- Each command's end-to-end outcome:
  - `PushRev.PushRevisionReachesPush`, for `g-push-rev` as written (`PushRevision(..., AsWritten, ...)`) and with the amend of lines 184-189 corrected (`Intended`); see "## Findings"
  - `DeleteRef.DeleteRemoteRefOutcome`
  - `AttachJob.Attach`

**Randomness** is passed in as parameters:
- `random.choice`, `uuid4` and the temporary key path;
- the name git gives an amended commit.

Freshness of these names is a premise of the theorems only, never a precondition of the operations.

## Model

| member | source | states |
|---|---|---|
| GitConfig.Snapshot | lib/common.py:14-30 | A touched section is backed up iff it exists. Inside it, a touched option is backed up iff it exists, with all its values. Nothing untouched is recorded. |
| GitConfig.SetValue | lib/common.py:38 | `set_value` creates the section if needed. It leaves the option with the single new value and changes no other option. |
| GitConfig.ApplyOutcome | lib/common.py:32-38 | Applying succeeds iff no write fails. Whether complete or stopped partway, it changes nothing outside the touched options and removes no existing section. |
| GitConfig.ApplyWrites | lib/common.py:32-38 | After a successful apply every overridden option holds exactly its new value. |
| GitConfig.RestoreOneEffect | lib/common.py:45-54 | Restoring one option succeeds iff its remove/add or remove-section calls succeed. It then leaves the saved values in a backed-up section and removes a section that was not backed up. |
| GitConfig.RestoreOutcome | lib/common.py:40-54 | The restore loop succeeds iff every restore call succeeds. It then leaves untouched sections alone, keeps exactly the backed-up touched sections, and gives every touched option its saved values or none. |
| GitConfig.RestoreUndoes | lib/common.py:12-54 | Round trip: after a complete or partial apply and any body that changed only touched options, restoring the snapshot of the original configuration gives it back exactly. |
| GitConfig.ApplyThenRestore | lib/common.py:12-54 | Apply followed directly by restore is the identity on the configuration. |
| ConfigScope.WithConfig | lib/common.py:12-54 | Whether every write of the override goes through or one fails, if the restore calls succeed and the body changes only the touched options, the configuration afterwards is exactly the one before. |
| ConfigScope.ConfigScopeRestores | lib/common.py:12-54 | The body sees every overridden option with its new value. However the body ends, the scope ends the same way, with the configuration exactly as before and the rest of the state as the body left it. |
| ConfigScope.ApplyFailureRestores | lib/common.py:32-54 | When a write of the override fails, the body never runs, the writes already made are undone, and the error propagates from the original state. |
| SigningScope.WithSigning | lib/common.py:57-82 | Format "none" runs the body unchanged. An unknown format raises before anything happens. With ssh, the key file created is gone afterwards whatever happens. |
| SigningScope.KeyFileBody | lib/common.py:73-78 | The key file is closed however the write or the body ends. |
| SigningScope.KeyFileBodyRuns | lib/common.py:73-78 | With a key to write, the inner part ends the way the body ends, with only the key file closed. |
| SigningScope.SshSigningRestores | lib/common.py:63-78 | The body runs with `gpg.format` = ssh, `user.signingkey` naming the key file, and the file present. Afterwards the configuration is exactly as before and the key file is gone, however the body ended. |
| SigningScope.SshSigningWithoutKey | lib/common.py:66-78 | With no key to write, the scope raises before the body, having undone the key file and the configuration. |
| SigningScope.SshSigningTransparent | lib/common.py:57-82 | A body that leaves configuration and key files alone sees the ssh scope leave no trace in either. |
| HeadScope.WithHeadKept | lib/common.py:85-99 | A dirty work area that cannot be stashed raises before the body. Otherwise, if resetting HEAD works, HEAD ends where it was on entry. |
| HeadScope.BodyRunsClean | lib/common.py:87-89 | The body runs on a clean work area at the same HEAD. The stash gains an entry iff the area was dirty or had untracked files. |
| HeadScope.HeadScopeRestores | lib/common.py:85-99 | However the body ends, the scope ends the same way, with HEAD (the same branch name, or the same detached commit), the work area and the stash as before. |
| RefScope.TakeBackupsOk | lib/common.py:104-116 | With free backup names, each same-named tag or branch gets a lightweight backup tag pointing at its target. |
| RefScope.DisplaceOk | lib/common.py:126-136 | The conflicting tag and branch are deleted. HEAD attached to that branch is detached at its commit first. |
| RefScope.CleanupOk | lib/common.py:118-124 | `cleanup_and_restore` puts every displaced tag and branch back at its old target and deletes the backup tags. |
| RefScope.RefEnteredIsUnique | lib/common.py:102-165 | While the body runs, the name exists exactly once, as the requested kind, at the commit. The tag is annotated iff it has a message or a signature, and signed iff a format is given. Backups hold the displaced targets and no other reference changed. |
| RefScope.WithRefUnique | lib/common.py:102-172 | When the names are fresh, the type is a tag or a branch that can be made, the scope's own calls succeed and the body leaves the references alone, every tag and branch afterwards is exactly as before, and the scope succeeds iff the body does. |
| RefScope.RefScopeRestores | lib/common.py:102-172 | After a successful creation, however the body ends, the scope ends the same way with every tag and branch exactly as before. |
| RefScope.BackupFailureLeaks | lib/common.py:114-116 | A failing branch backup propagates at once and leaves the tag backup already made behind. |
| RefScope.DisplaceFailureRestores | lib/common.py:126-139 | A failing branch deletion restores the backups and re-raises, without running the body. HEAD stays detached. |
| RefScope.FailedCreationSkipsRestore | lib/common.py:141-172 | When creating the tag fails, the `finally` fails to delete it and skips `cleanup_and_restore`. The same-named references stay deleted and their backups stay. |
| RefScope.UnknownRefTypeRaises | lib/common.py:141-172 | An unknown reference type raises after the displacement. The `finally` restores the displaced references and deletes nothing. |
| RemoteScope.WithRemote | lib/common.py:175-181 | A taken or failing remote name raises before the body. A raising body propagates with the remote left behind. A body that returns has the remote removed. |
| RemoteScope.RemoteScopeCleans | lib/common.py:175-181 | A body that returns and leaves the remotes alone sees the remotes exactly as before the scope. |
| RemoteScope.RemoteCleanupIdempotent | lib/common.py:180-181 | A remote the body already removed is not removed again, and the scope does not fail on it. |
| Credentials.PasswordVariable | lib/cmd/g-push-rev.py:129-140 | Without a password the variable is GCHL_PASSWORD. With one it is a fresh 32-character name: a lower-case letter followed by UUID hex digits, never GCHL_PASSWORD. |
| Credentials.HelperNamesItsVariable | lib/cmd/g-push-rev.py:141-145 | The credential helper command built for a variable reads exactly that variable. |
| Credentials.CredentialConfig | lib/cmd/g-delete-ref.py:60-84 | The override is well formed, lies in the `credential "<url>"` section, and holds the user name and a helper reading the password variable. |
| GitRepo.PasswordScopeLeavesEnv | lib/cmd/g-push-rev.py:213-243 | While the push runs, the variable holds the password. Popping it afterwards gives back the environment from before. Without a password nothing is written. |
| GitRepo.HelperCredentials | lib/cmd/g-push-rev.py:121-145 | With the credential override in force, git hands the remote the given user name and the password, or GCHL_PASSWORD from the environment when none was given. |
| PushRev.PushConfig | lib/cmd/g-push-rev.py:121-158 | The override is well formed and all in the repository scope. It holds the credential user name and helper first. `user.name`/`user.email` are present iff an annotated or signed tag or a signed revision needs an identity. |
| PushRev.KeyMaterial | lib/cmd/g-push-rev.py:198-202 | The key is the argument when given, otherwise the environment variable. A missing or empty choice yields no key. |
| PushRev.DefaultRefNameParts | lib/cmd/g-push-rev.py:171-175 | The default name is `gchl-<type>-` followed by the first (up to) eight characters of the commit. |
| PushRev.RefMessage | lib/cmd/g-push-rev.py:191-196 | The given message wins. A signed reference without one gets "signed". A signed reference never has an empty message. |
| PushRev.SignRevisionAsWritten | lib/cmd/g-push-rev.py:184-189 | As written: the amended commit records the index tree, with the revision's parents and message. HEAD is detached at it. |
| PushRev.AsWrittenTreeIsHeadTree | lib/cmd/g-push-rev.py:184-189 | Inside `git_keep_head` the amended commit gets HEAD's tree. It has the revision's tree iff HEAD already had it. |
| PushRev.AmendRecordsWrongTree | lib/cmd/g-push-rev.py:184-189 | A concrete repository where signing a revision other than HEAD records HEAD's tree, while the corrected signing keeps the revision's. |
| PushRev.SignRevision | lib/cmd/g-push-rev.py:184-189 | Corrected: the new commit is the revision (tree, parents, message), now signed, and HEAD is detached at it. A failure to move HEAD raises from the original state. |
| PushRev.PushRevision | lib/cmd/g-push-rev.py:160-163 | With `--safe-path` the command raises, on the missing "global" scope, before touching anything. |
| PushRev.PushWithPasswordOk | lib/cmd/g-push-rev.py:213-243 | The push with the password armed ends the way the push ends. A successful push records one entry, and the password variable is gone again. |
| PushRev.AtConfigValues | lib/cmd/g-push-rev.py:167 | Inside the command's scopes the credential user name and helper are in force. |
| PushRev.PushedSource | lib/cmd/g-push-rev.py:204-230 | The pushed reference is the one the reference scope made: a tag annotated and signed as asked, or a branch, at the commit to push. |
| PushRev.PushedCredentials | lib/cmd/g-push-rev.py:213-230 | The push authenticates with the given user name and the password the helper reads. |
| PushRev.EnteredIndexIsHeadTree | lib/cmd/g-push-rev.py:170 | Inside `git_keep_head` HEAD still has the tree it had when the command started, and the index holds that tree. |
| PushRev.PushRevisionReachesPush | lib/cmd/g-push-rev.py:116-243 | Holds for the command as written (`AsWritten`) and with the corrected amend (`Intended`). A run that reaches the push ends as the push ends. On success exactly the expected push is recorded and the state is otherwise as before, except for the commit the amend adds when the revision is signed. On failure the temporary remote is left behind as well. |
| PushRev.PushedCommitIsRevision | lib/cmd/g-push-rev.py:170-189 | The pushed commit has the revision's parents and message, and is signed if signing was asked. Unsigned, it is the revision itself. Signed as written, its tree is the tree HEAD had when the command started; with the corrected amend it is the revision's tree. No other commit changes. |
| PushRev.UnknownRevisionRaises | lib/cmd/g-push-rev.py:167-168 | A revision that names no commit raises, with the configuration already restored and nothing else touched. |
| DeleteRef.RefNamespace | lib/cmd/g-delete-ref.py:86-93 | "branch" maps to heads, "tag" to tags, and anything else to no namespace. |
| DeleteRef.DeleteRefspecDetermines | lib/cmd/g-delete-ref.py:102-104 | Distinct (namespace, name) pairs give distinct deletion refspecs. |
| DeleteRef.SuccessMessages | lib/cmd/g-delete-ref.py:105-111 | The success lines read "Branch '<name>' is successfully deleted" and "Tag '<name>' ...". |
| DeleteRef.DeleteRemoteRef | lib/cmd/g-delete-ref.py:86-93 | An unknown reference type raises before anything is touched. |
| DeleteRef.DeletionInRemote | lib/cmd/g-delete-ref.py:99-123 | One push. On success it is recorded and logged. On failure: a warning under `--force`, otherwise it propagates. The environment is as before in every case. |
| DeleteRef.DeleteRemoteRefOutcome | lib/cmd/g-delete-ref.py:55-123 | End to end: the deletion is pushed with the override's credentials and logged. A failure is a warning under `--force`, with the remote removed; otherwise it propagates with the remote left behind. The configuration and environment are as before. |
| AttachJob.ClampTimeout | lib/cmd/gl-attach-job.py:53 | A negative timeout becomes 0. Others are kept. |
| AttachJob.FindJob | lib/cmd/gl-attach-job.py:56-71 | Not found iff no job has the name, found iff exactly one, ambiguous iff two or more. The job returned is the first with the name. |
| AttachJob.ReportPoll | lib/cmd/gl-attach-job.py:77-91 | One poll prints exactly the trace beyond what was already printed. The count becomes the larger of the old count and the trace length. |
| AttachJob.PrintedCountsOutput | lib/cmd/gl-attach-job.py:77-91 | The reported count equals the number of characters printed. |
| AttachJob.PrefixChainPrintsLatest | lib/cmd/gl-attach-job.py:77-91 | When each poll's trace extends the previous one, the output is the latest trace: nothing printed twice, nothing skipped. |
| AttachJob.ExitCode | lib/cmd/gl-attach-job.py:104 | The exit code is 1 iff the final status is not success, 0 otherwise. |
| AttachJob.Search | lib/cmd/gl-attach-job.py:55-76 | The search stops at the first poll listing the name, or at the first finished pipeline that does not list it. Earlier polls list no such job and have unfinished pipelines. |
| AttachJob.Follow | lib/cmd/gl-attach-job.py:72-93 | Following stops at the first poll with a final job status, exiting with its code. The output is the incremental trace printing of the polls followed. |
| AttachJob.Attach | lib/cmd/gl-attach-job.py:37-104 | Exit only after finding the job, with a code that is non-zero iff its final status is not success. "Not found" only after a finished pipeline. The first job is announced even when a second makes the name ambiguous. |
| AttachJob.AttachPrintsLatestTrace | lib/cmd/gl-attach-job.py:77-91 | When the trace only grows, everything printed is the trace as last downloaded. |

## Left out

- Repository creation is not modelled. `Repo.init`, the temporary directory of `g-delete-ref` and the argument parsers are outside the model: each command starts from a given `State`.
- `PushRev.KeyMaterial`: the chosen key text is not base64-decoded. An undecodable key is therefore not modelled as raising.
- The `GITHUB_OUTPUT` file written after a push is not modelled. It is file I/O and does not affect the repository.
- The push progress printing (`RemoteProgress`) is not modelled. It is output only.
- Temporary key files are reduced to their existence. Their path, flushing and contents are left out.
- Randomness is not computed. `uuid4`, `random.choice`, the name of the amended commit and the temporary key path are parameters.
- `PushRev.PushRevision`: `--safe-path` indexes a "global" key that the override dict does not have, so the command raises `KeyError` there. It is modelled as raising `NoGlobalScope`, and the safe-directory setting it was meant to add is not modelled.
- `AttachJob.Attach` has these gaps:
  - the GitLab client, `time.sleep` and the decoding of trace bytes are left out;
  - each pass of the loop observes one element of a finite sequence of polls, so a run that never ends is modelled as `StillPolling` when the polls run out;
  - `project.jobs.get(job.id)` is modelled as the entry of the job list.
- The status constants `JOB_FINAL_STATUSES`, `PIPELINE_FINAL_STATUSES` and `JOB_SUCCESS` are a parameter. The module defining them is not part of this model.
- DeleteRef.UpperChar: only the ASCII letters a-z are upper-cased, whereas Python's `str.upper` also maps other letters, sometimes to several characters (`'ß'.upper()` is `"SS"`). Only "branch" and "tag" reach it, and both start with an ASCII letter.
- The other commands of the repository and their helpers are not part of this model.
- Remote servers are not modelled. A push is recorded with its URL, refspec, source, force flag and credentials, but what the server does is not modelled.
- GitRepo.CredentialsFor: git asks only one helper in this model, the first `helper` value of the repository-scope section `credential "<url>"`. Real git asks every helper configured in every scope (system, global, then repository) and in every matching `credential` section, in order, and stops at the first that answers. Neither command resets that list with an empty `helper` value, so a global helper such as `store` can answer first. `GitRepo.HelperCredentials`, `PushRev.PushedCredentials` and the credentials recorded by `PushRev.PushRevisionReachesPush` and `DeleteRef.DeleteRemoteRefOutcome` hold only when no other helper answers for the URL.
- GitRepo.StashPop: `git stash pop --index` is modelled only onto a clean work area, where it brings back the stashed entry. Merging into a work area the body changed, and a conflict there, are not modelled; a failed pop is one of the `faults`. `HeadScope.HeadScopeRestores` assumes a body that leaves the work area and the stash as it found them.
- The credential helper is not run as shell code. It is modelled by the variable it reads: `Credentials.HelperVariable` recovers that variable from the command text.

## Findings

| source | as written | input that shows it | evidently intended | confidence | as-written member | corrected member |
|---|---|---|---|---|---|---|
| lib/cmd/g-push-rev.py:184-189 | `repo.head.reference = commit` moves HEAD without touching the index. `git commit --amend` then records the index tree, which is the tree of the commit HEAD was on. | HEAD on `main` at commit "h" with tree T1; revision "r" with tree T2 and parent "h". The signed commit gets tree T1, undoing the change of "r". | The signed commit has the revision's own tree, parents and message. | not executed | PushRev.AmendRecordsWrongTree | PushRev.SignRevision |

`PushRev.PushRevision` takes the amend as a parameter. `AsWritten` runs `SignRevisionAsWritten`, which is the command as it stands. `Intended` runs `SignRevision`, the corrected amend. The end-to-end lemmas are proved for both.
