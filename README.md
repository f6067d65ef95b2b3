# gitlet in Dafny

A model of the core of gitlet, a small local version-control system. Four
modules cover it:

- `Wrappers` (`wrappers.dfy`): `Option` and a map lookup `Get` that answers `None` where Java's `get` answers null.
- `Gitlet` (`gitlet.dfy`): the repository state, as `gitlet/Gitlet.java` defines it.
  - Commits are a datatype with the parents embedded by value. A merge commit is the `Merge` variant, with a second parent.
  - A file's tracked blob hash is a 40-character `Hash`.
  - Branches, the add area, the removal area and the repository itself are classes whose methods update their fields.
  - The repository also holds the commit folder and the blob folder (maps from hash to content) and the working directory (file name to contents).
  - The SHA-1 of a blob and of a serialised commit are the uninterpreted functions `blobId` and `commitId`.
  - `Repository.Valid` is the invariant every command keeps:
    - the head branch is stored under its own name;
    - every branch points to a stored commit;
    - every stored object sits under its own hash, and every blob a commit or the add area refers to is stored;
    - no file is in both areas.
- `MergeCommand` (`merge.dfy`): the merge engine of `gitlet/Command.java`.
  - The split-point search over the commit graph (`getSplitPoint`, `recursiveIterateCurrentSearchTarget`, `recursiveSearchTarget`).
  - The map helpers `intersection`, `aNotInB` and `modified`.
  - The reconciliation phases of `runMain` (`existRun`, `inTargetNoHeadRun`, the inline loops, `headModifiedRun`, `targetModifiedRun`).
  - The conflict file of `mergeFilesReal`.
  - `Resolve` is an independent three-way rule for a single file. `RunMain` is proved to agree with it on every file, and its conflict flag is proved set exactly when some file conflicts.
- `Command` (`command.dfy`): the commands `add`, `commit`, `rm`, `branch`, `rm-branch`, `checkout` (all three forms), `reset`, `find` and `merge`.
  - Each command is a method on a `Repository`. It returns an `Outcome`: `Done`, or the message the source prints before it stops.
  - Its contract gives, for every reject condition in the source's order, the outcome and the unchanged state. For success it gives the new state.
  - Commands whose proof is large are split into a method that makes the checks and a method that makes the changes (for example `CommitCommand` and `MakeCommit`).
  - Every full checkout (checkout of a branch, reset, both kinds of merge) is proved to leave the repository clean: nothing staged, nothing marked for removal, no unstaged modification, no untracked file (`CheckedOutIsClean`).

Parameters stand in for the directory listings and the clock: `names` is the listing of the commit folder, `listing` is the listing of the working directory, and `timestamp` is the current time.

## Model

| member | source | states |
|---|---|---|
| Gitlet.Commit.IsMerge | gitlet/Gitlet.java:463-465 | true exactly for a commit built as a merge (the Merge constructor sets the flag, 614-618) |
| Gitlet.Commit.IsTracked | gitlet/Gitlet.java:553-555 | true exactly when the commit records a hash for the file |
| Gitlet.Commit.GetHashFromFileName | gitlet/Gitlet.java:517-519 | non-null exactly when isTracked holds, and then the hash recorded for the file |
| Gitlet.Commit.TrackFile | gitlet/Gitlet.java:564-566 | afterwards the file is tracked with the given hash; every other file's hash and every other field of the commit are unchanged |
| Gitlet.Commit.UnTrackFile | gitlet/Gitlet.java:574-576 | afterwards the file is not tracked; every other file's hash and every other field are unchanged |
| Gitlet.CopyTracked | gitlet/Gitlet.java:473-482 | the constructor's entry-by-entry copy yields exactly the parent's tracked map |
| Gitlet.NewCommit | gitlet/Gitlet.java:473-482 | a new commit has the given message and parent; it tracks exactly its parent's files, or none without a parent |
| Gitlet.NewMerge | gitlet/Gitlet.java:614-618 | a merge commit tracks parent1's files, records both parents and answers true to IsMerge |
| Gitlet.FirstWithPrefix | gitlet/Gitlet.java:490-497 | the index found is the first name that starts with the prefix; None exactly when no name does |
| Gitlet.CommitFromHash | gitlet/Gitlet.java:489-509 | a full-length hash is used as it is; a shorter one becomes the first listed commit name it prefixes, and stays unchanged when none matches; the result is the commit stored under that name, None (the error) when there is none |
| Gitlet.Branch.constructor | gitlet/Gitlet.java:656-659 | a branch has the given name and commit pointer |
| Gitlet.Branch.GetCommitHash | gitlet/Gitlet.java:689-691 | the branch's commit pointer, as the constructor or the last setCommit left it |
| Gitlet.Branch.SetCommit | gitlet/Gitlet.java:682-691 | afterwards getCommitHash returns the hash set |
| Gitlet.StagingArea.GetFiles | gitlet/Gitlet.java:403-405 | the area itself |
| Gitlet.StagingArea.HasFile | gitlet/Gitlet.java:377-379 | true exactly when the file is a key of getFiles() |
| Gitlet.StagingArea.IsStaged | gitlet/Gitlet.java:377-389 | isStaged always agrees with hasFile |
| Gitlet.StagingArea.Stage | gitlet/Gitlet.java:353-355 | the area maps the file to the given hash; every other entry is unchanged |
| Gitlet.StagingArea.Unstage | gitlet/Gitlet.java:361-363 | only that file leaves the area |
| Gitlet.StagingArea.Clear | gitlet/Gitlet.java:368-370 | the area is empty |
| Gitlet.Repository.Init | gitlet/Command.java:121-128 | the state init leaves: a root commit with no parent, no files and the epoch timestamp, stored under its hash; one branch "master" pointing to it as head; empty areas and blob folder; the invariant holds |
| Gitlet.Repository.Head | gitlet/Gitlet.java:103-105 | the commit stored under the head branch's pointer |
| Gitlet.Repository.GetBranch | gitlet/Gitlet.java:136-138 | non-null exactly when a branch of that name exists, and then it is that branch |
| Gitlet.Repository.AddBranch | gitlet/Gitlet.java:168-170 | the branch is stored under its name, replacing any branch of that name, and getBranch then returns it |
| Gitlet.Repository.RemoveBranch | gitlet/Gitlet.java:177-179 | only the branch of that name is deleted |
| Gitlet.Repository.SetHeadBranch | gitlet/Gitlet.java:160-162 | the head branch is the given branch |
| Gitlet.Repository.SaveCommit | gitlet/Gitlet.java:542-545 | the commit is stored under its hash; nothing else in the commit folder changes |
| Gitlet.Repository.SaveBlob | gitlet/Gitlet.java:306-318 | the blob is stored under the hash of its contents, which is the id returned; equal contents give equal ids |
| Gitlet.Repository.UnstagedFiles | gitlet/Gitlet.java:189-230 | a file is reported exactly when it is staged and its working copy differs from the staged hash, or when it is unstaged, tracked by head and its working copy differs from the tracked hash. A missing copy not marked for removal counts as differing. A missing file maps to true, a modified one to false |
| Gitlet.Repository.Untracked | gitlet/Gitlet.java:233-244 | keeps exactly the listed names that head does not track and that are not staged |
| Gitlet.Repository.UntrackedFiles | gitlet/Gitlet.java:233-244 | the untracked names of the working-directory listing, in listing order |
| MergeCommand.Intersection | gitlet/Command.java:983-997 | exactly the entries of a whose file b also tracks, with a's hashes |
| MergeCommand.ANotInB | gitlet/Command.java:1005-1017 | exactly the entries of a whose file b does not track |
| MergeCommand.Modified | gitlet/Command.java:1027-1046 | exactly the files of a whose hash b changed, each mapped to b's hash or to "" when b lacks it; files unchanged in b and files only in b are absent |
| MergeCommand.IntersectionANotInBPartition | gitlet/Command.java:983-1017 | the results of intersection(a, b) and aNotInB(a, b) are disjoint and together make up a |
| MergeCommand.SearchTarget | gitlet/Command.java:955-974 | recursiveSearchTarget returns the first commit with current's hash in the visit order of the target's history (commit, then second-parent history, then first parent) |
| MergeCommand.DfsSound | gitlet/Command.java:955-974 | a commit recursiveSearchTarget returns has the searched hash and is reachable from the target through first and second parents |
| MergeCommand.DfsComplete | gitlet/Command.java:955-974 | when recursiveSearchTarget returns null, no commit reachable from the target has the searched hash |
| MergeCommand.RecursiveIterateCurrentSearchTarget | gitlet/Command.java:928-946 | for a merge commit the second parent's history is tried first, then the commit itself is searched in the target |
| MergeCommand.DetourSound | gitlet/Command.java:928-946 | what the detour finds is reachable from the target and shares its hash with a commit reachable from current |
| MergeCommand.GetSplitPoint | gitlet/Command.java:907-919 | the first detour hit along the head's first-parent chain, None when there is none |
| MergeCommand.SplitPointSound | gitlet/Command.java:907-946 | a split point found is reachable from the target and has the hash of a commit reachable from the head: a common ancestor up to hash |
| MergeCommand.SplitPointNone | gitlet/Command.java:907-974 | when no split point is found, no commit on the head's first-parent chain has the hash of a commit reachable from the target |
| MergeCommand.FastForwardSplit | gitlet/Command.java:626-629 | when the head is not a merge commit and is reachable from the target, the split point has the head's hash, so merge fast-forwards |
| MergeCommand.MergeHeadSplitsAtSecondParent | gitlet/Command.java:934-941 | when the target descends from a merge-commit head whose second parent is a regular commit, a split point is found and it has the second parent's hash, because the second parent is searched before the head |
| MergeCommand.MergeHeadNoFastForward | gitlet/Command.java:618-629 | in one concrete history (a branch made from a merge-commit head, then advanced), the split point's hash differs from both the head's and the target's, so merging the branch back does not fast-forward |
| MergeCommand.MergeFilesRealLayout | gitlet/Command.java:889-897 | (the contract of MergeFilesReal) the conflict file mergeFilesReal builds: the head marker line, the head side, the separator line, the target side and the end marker line, in that order and nothing else, so both sides can be read back |
| MergeCommand.MergeFilesSides | gitlet/Command.java:873-880 | (the contract of MergeFiles) mergeFiles reads a null or "" hash as an empty side and any other hash as the contents of its stored blob |
| MergeCommand.Resolve | gitlet/Command.java:690-871 | the three-way rule for one file: a conflict exactly when head, target and split point all differ pairwise (a missing file counts as a value), recording both sides; otherwise the one side that changed, or the common value |
| MergeCommand.ExistHashResolves | gitlet/Command.java:752-792 | for a file both sides track, existRun's conflict test and the hash it tracks agree with the three-way rule |
| MergeCommand.ExistFoldTracked | gitlet/Command.java:752-792 | after existRun's loop in any visiting order, each visited file tracks existRun's hash and every other file is unchanged |
| MergeCommand.ExistFoldConflict | gitlet/Command.java:752-792 | existRun's flag is set exactly when it was already set or some visited file conflicts |
| MergeCommand.ExistFoldCreated | gitlet/Command.java:752-792 | every conflict file existRun tracks is among the blobs it saved, and every blob it saved is the conflict file of some visited file |
| MergeCommand.ExistRun | gitlet/Command.java:752-792 | existRun on the files both sides track: each tracks the conflict file when head, target and split point all differ, the target's hash when head equals the split point, else the head's; the flag and the saved blobs are as above |
| MergeCommand.InTargetNoHeadRun | gitlet/Command.java:793-807 | the entries whose name the guard map tracks are laid over the merge map; nothing else changes |
| MergeCommand.TrackAll | gitlet/Command.java:733-744 | every entry is laid over the merge map; nothing else changes |
| MergeCommand.DeletedFoldTracked | gitlet/Command.java:808-871 | after a deleted-file phase, each file one side deleted is untracked, or tracks the conflict file when the other side changed it |
| MergeCommand.DeletedFoldConflict | gitlet/Command.java:808-871 | a deleted-file phase sets the flag exactly when it was set or some deleted file conflicts |
| MergeCommand.DeletedFoldCreated | gitlet/Command.java:808-871 | every conflict file a deleted-file phase tracks is among the blobs it saved, and every blob it saved is the conflict file of some visited deleted file |
| MergeCommand.HeadModifiedRun | gitlet/Command.java:808-838 | for every file the head deleted since the split point: a conflict file with an empty head side when the target changed it, else untracked; other files unchanged |
| MergeCommand.TargetModifiedRun | gitlet/Command.java:840-871 | for every file the target deleted since the split point: a conflict file with an empty target side when the head changed it, else untracked; other files unchanged |
| MergeCommand.ReconcileFile | gitlet/Command.java:690-750 | following one file through all phases, the merge commit tracks what the three-way rule gives, and some phase flags it exactly when the rule says conflict |
| MergeCommand.ExistCreatedResolves | gitlet/Command.java:752-792 | a blob existRun saved is what the merge tracks, under the three-way rule, for a file in conflict |
| MergeCommand.HeadDeletedCreatedResolves | gitlet/Command.java:808-838 | a blob headModifiedRun saved is what the merge tracks, under the three-way rule, for a file in conflict |
| MergeCommand.TargetDeletedCreatedResolves | gitlet/Command.java:840-871 | a blob targetModifiedRun saved is what the merge tracks, under the three-way rule, for a file in conflict |
| MergeCommand.CreatedResolves | gitlet/Command.java:690-871 | every blob any phase of runMain saved is what the merge tracks, under the three-way rule, for a file in conflict |
| MergeCommand.ReconcileAll | gitlet/Command.java:690-750 | the phases, composed as runMain calls them, agree with the three-way rule on every file |
| MergeCommand.RunMain | gitlet/Command.java:690-750 | the merge commit tracks, for every file, the three-way resolution of head, target and split point; only its tracked files change; it reports a conflict exactly when some file conflicts; every hash it tracks is stored or among the blobs it saved; the blobs it saved are each under their own hash and are exactly conflict files the merge commit tracks |
| Command.CheckedOutIsClean | gitlet/Gitlet.java:189-244 | a working directory holding exactly the head commit's files, with both areas empty, has no unstaged and no untracked file |
| Command.CheckUnstaged | gitlet/Command.java:403-406 | unstagedFiles() is empty exactly when no file is unstaged |
| Command.CheckUntracked | gitlet/Command.java:403-406 | untrackedFiles() is empty exactly when no file of the working directory is untracked |
| Command.DeleteListed | gitlet/Command.java:411-414 | every listed file is gone and every other file keeps its contents |
| Command.WriteTracked | gitlet/Command.java:416-422 | every tracked file holds its blob's contents and every other file keeps its contents |
| Command.CheckoutAll | gitlet/Command.java:411-422 | afterwards the working directory holds exactly the tracked files with their blobs' contents |
| Command.CheckOutHead | gitlet/Command.java:411-422 | afterwards the working directory holds exactly the head commit's files and the repository is clean |
| Command.Add | gitlet/Command.java:154-181 | a missing file is rejected with nothing changed; a file in the removal area only leaves it; otherwise the file is staged as below and is afterwards neither untracked nor unstaged |
| Command.StageFile | gitlet/Command.java:171-180 | the blob is stored; the file leaves the add area when head tracks that very blob, and is staged with the blob's hash otherwise |
| Command.Rm | gitlet/Command.java:261-282 | a file neither staged nor tracked by head is rejected with nothing changed; a staged file is only unstaged; a tracked file is marked for removal and deleted as below |
| Command.MarkRemoved | gitlet/Command.java:276-280 | the file is marked for removal and deleted from the working directory, and is afterwards neither untracked nor unstaged |
| Command.TrackStaged | gitlet/Command.java:222-226 | the commit tracks the parent's files with every staged entry upserted; its other fields are unchanged |
| Command.UntrackRemoved | gitlet/Command.java:227-231 | every key of the removal area is then untracked; the other files and fields are unchanged |
| Command.CommitCommand | gitlet/Command.java:200-237 | an empty message, then two empty areas, are rejected with nothing changed; otherwise the new head has the head as parent, the message and time, and the head's files with staged entries upserted and then removed files deleted; both areas are empty and the commit is stored under the head's new hash |
| Command.MakeCommit | gitlet/Command.java:219-235 | the new commit as above is stored, the head branch points to its hash, both areas are emptied |
| Command.StageCommitRoundTrip | gitlet/Command.java:171-231 | after staging contents X as a file (add) and committing (commit), the new commit tracks the file with a stored blob whose contents are X, which checkout writes back |
| Command.BranchCommand | gitlet/Command.java:556-567 | a taken name is rejected; otherwise only a new branch of that name is added, pointing to the head commit |
| Command.RmBranch | gitlet/Command.java:577-592 | the current branch, then a missing branch, are rejected; otherwise only that branch is deleted |
| Command.CheckoutFile | gitlet/Command.java:361-383 | a commit hash that resolves to no stored commit, then a file that commit does not track, are rejected; otherwise only that file's working copy changes, to the commit's blob |
| Command.CheckoutHeadFile | gitlet/Command.java:346-347 | the head's version is written back exactly when head tracks the file, after which an unstaged copy no longer differs |
| Command.CheckoutBranch | gitlet/Command.java:392-424 | a missing branch, then the current branch, then a repository that is not clean, are rejected with nothing changed; otherwise the branch becomes head, its commit's files are the working directory and the repository is clean |
| Command.SwitchTo | gitlet/Command.java:411-422 | the branch becomes head and is fully checked out, leaving the repository clean |
| Command.Reset | gitlet/Command.java:1063-1098 | a hash resolving to no stored commit, then an unstaged or untracked file, are rejected with nothing changed; otherwise the head branch points to that commit, whose files become the working directory, and the repository is clean |
| Command.ResetTo | gitlet/Command.java:1081-1096 | both areas are emptied, the head branch points to the commit and its files are checked out |
| Command.Matching | gitlet/Command.java:442-459 | exactly the listed commit names whose message matches, as a subsequence of the listing (so in listing order) |
| Command.Find | gitlet/Command.java:442-459 | the ids reported are exactly the stored commits with that message, in listing order; NotFound exactly when there is none |
| Command.CheckRun | gitlet/Command.java:665-688 | each rejection (missing branch; staged, removed or unstaged changes; untracked files; the current branch) is reported exactly when it is the first to apply, Done exactly when none does |
| Command.Merge | gitlet/Command.java:607-663 | the same rejection as checkRun under exactly the same conditions (no such branch, then uncommitted changes, then an untracked file in the way, then merging with itself), with nothing changed; no split point, or one with the target's hash, changes nothing; one with the head's hash moves the head to the target and checks it out; otherwise a merge commit with parents head and target, message "Merged <target> into <head>." and the three-way resolution of every file becomes the head and is checked out; the blob store becomes the old store plus only conflict files that commit tracks; the conflict flag is reported exactly when some file conflicts |
| Command.FastForward | gitlet/Command.java:626-641 | the head branch points to the target commit, whose files are checked out |
| Command.MergeCommits | gitlet/Command.java:645-661 | the merge commit recorded as above becomes the head and its files are checked out; the new blob store is exactly the old store plus the blobs runMain saved, each under its own hash and each a conflict file the merge commit tracks |
| Command.StoreMerge | gitlet/Command.java:657-661 | the conflict blobs are added, the merge commit is stored under its hash and the head branch points to it; the invariant is kept |

## Behaviour of the code worth knowing

- Abbreviated hashes: `Commit.fromHash` takes the first commit name in the listing that starts with the prefix (gitlet/Gitlet.java:490-497). An ambiguous prefix is not rejected.
- Missing commits: `fromHash` signals a missing commit through `Utils.error`, and `checkout` and `reset` catch `IllegalArgumentException` (gitlet/Command.java:363-367, 1068-1073). Whether that catch applies depends on `Utils`, which is not part of this model. The model reports the outcome `NoSuchCommit` and changes nothing.
- Fast-forward: merging B into A fast-forwards when A's head is a regular commit reachable from B's head (`FastForwardSplit`). When A's head is a merge commit, the search tries its second parent before the head itself. So the split point has the second parent's hash when that parent is a regular commit (`MergeHeadSplitsAtSecondParent`), and a three-way merge can run instead (`MergeHeadNoFastForward`).
- When the head is a regular (non-merge) commit, changing a file on a branch made from the head and merging that branch back is a fast-forward, because the head itself is the split point (`FastForwardSplit`). No conflict is reported. When the head is a merge commit this does not hold: the split point can be the head's second parent and a three-way merge runs (`MergeHeadNoFastForward`).
- `modified`'s comment says it also lists files only in B; the code lists only files of A (`Modified`).
- `reset` does not reject a repository with staged files; it clears both areas (gitlet/Command.java:1075-1082).

## Left out

- The printing of messages: each one is an `Outcome` value instead.
- `log`, `global-log` and `status`: they only print.
- Persistence: `loadGitlet`, `save`, the `GITLET_OBJECT` singleton, and the on-disk layout. The repository is passed explicitly.
- `init`'s check for an existing `.gitlet` folder and its directory creation: only the resulting state is modelled (`Repository.Init`).
- SHA-1 and Java serialisation: `blobId` and `commitId` are uninterpreted functions. A stored object's key is its own hash, but hashes are not assumed injective.
- Directory listings (`Utils.plainFilenamesIn`) and the clock are parameters. The `Timestamp` is an `int`.
- File I/O is modelled on a map. A file write replaces a map entry, a delete removes it, and a blob read is a lookup in the blob store (`Utils` is not part of this model).
- Merge's working-directory writes are modelled by their end state. The working directory becomes exactly the merge commit's files (`MergeCommits`). The source writes or deletes each file that the merge changes and leaves head-only files in place. For a clean repository the two agree, except where two different contents share a blob hash.
- Conflict files read their sides from the blob store as it was before the merge. New conflict blobs are added when the merge ends. Other commits' blobs are never conflict files unless two contents share a hash.
- Merge: when no split point exists, the source dereferences null. The model reports `NoSplitPoint` and changes nothing. All histories descend from the one root commit `init` creates, so this does not arise from `init`.
- `mergeFiles(Blob, Blob)` (gitlet/Command.java:882-887) is never called. The hash overload is `MergeFiles`.
- `Command.Diff`, `Main` and `UnitTest`: an unregistered stub, command dispatch, and a test placeholder.
- The argument-count checks of `Command.run` (gitlet/Command.java:36-40, 82-87), and commit's catch that turns a missing argument into "Please enter a commit message." The model takes arguments as typed parameters.
- `StagingArea.hasBlob`, `stage(fileName)` (add stages through `Stage` with the blob's hash), `getArea`, `Commit.toString` and `getTimestamp` formatting: unused by the modelled commands, or printing only.
- MergeHeadSplitsAtSecondParent: covers a merge-commit head whose second parent is a regular commit. When that parent is itself a merge commit, its own second parent's history is searched first, so the split point can be an older commit. That case is not stated.
- MergeCommits: a conflict blob is tied to its file by its hash (the merge commit tracks that hash and the blob's contents hash to it). Which file's conflict text it holds is not stated separately.
