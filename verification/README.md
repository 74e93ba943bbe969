# Hermes GitOps: verified core

Hermes GitOps keeps a fleet of agents in a Git repository and shows it in a web control
plane. This project models the four parts of it whose correctness is not visible in any
single function, and proves what they promise:

- **The GitOps publisher** (`Text`, `GitPaths`, `GitModel`, `PublishSpec`, `HeadSpec`,
  `GitHost`, `Publisher`, `DirectRuns`, `Sequential`, `Proposals`, `Records`, `Emission`,
  `PullRequestRuns`, `PullRequestCalls`). Several writers clone a branch, sweep and write a work
  tree, commit, and push - straight to the branch with one rebase and one retry, or onto a
  per-agent head branch that a pull request merges. Commits are immutable (parent, tree); `push`
  is a compare-and-set that only fast-forwards; a rebase is a path-wise three-way merge. Both
  modes are proved twice over: as the publisher's own methods against one server, and as any
  interleaving of any number of writers; `Sequential` and `PullRequestCalls` prove that the
  methods' runs are runs of the interleavings.
- **The workspace document** (`Json`, `Labels`, `WorkspaceSpec`, `WorkspaceValidator`,
  `WorkspaceClean`, `WorkspaceClaims`, `Relationships`, `Adoption`, `WorkspaceStore`). A closed-allowlist validator
  over a nested document, a one-time migration that runs on read, and a revision
  compare-and-set.
- **The eval store and the health and backup ladder** (`EvalStore`, `Levels`, `Sorting`,
  `Plans`, `Collector`, `Overlay`, `Rollups`, `HealthClaims`, `RollupClaims`, `Routines`,
  `Backups`, `BackupsDot`, `BackupClaims`, `BackupRows`). A bounded, deduplicating log; seven sources joined into one overlay
  with remembered last-good answers; and the Backups view with the one dot it feeds.
- **Two algebraic pieces of the CLI** (`DeepMerge`, `Dotenv`).

What the source changes in place - the remote, the pull-request list, the work tree, the
adapters' memory, the result store, the workspace file - is a class here, and each of its methods
is proved against a specification function; loops over lists are loops with invariants. The
theorems are about those functions, and about every run or history of them.

## Results that are not simply "it works"

- A publish can attempt an empty commit. It does for no base at all exactly when every path is
  well spelled and each place has one content (`NoEmptyCommitIff`); a doubled slash below a
  reconciled tree is enough to make it happen (`RespelledIsSwept`, `EmptyCommitExample`).
- The head-branch comparison reads the record as text. It is right about the record exactly when
  the head's copy has no carriage return or matches in neither reading (`HeadTestRightIff`); a
  CRLF copy passes for the LF record (`StaleHeadExample`). An immediate second run is quiet
  exactly when the record has no carriage return and neither the request nor, unswept, the base
  has a file in the place of a reconciled tree (`SecondRunIsQuietIff`,
  `SecondRunPushesAgainExample`).
- Two agents that publish different records at once both land (`OthersPublishToo`); a rebase is a
  conflict exactly when a path was changed by both sides to different contents or a file stands
  where another needs a directory (`MergesIff`, `PushBesideOthersIff`).
- A direct publish that lands after a rebase need not leave the files as published: the replay
  restores only what the writer itself changed (`LandedIsDesiredIff`, `LandedNotDesiredExample`).
- Emit followed by decommission is the identity only under a condition (`EmitThenDecommissionIff`).
  For a checked name, paths in normal spelling and a profiles path outside `catalog/`, it is that
  the repository held nothing of the name and its dashboard sources were already exactly the
  emitted ones: those are not removed with the record (`EmitIsUndoneIff`,
  `DashboardSurvivesExample`).
- `build_overlay` documents its name-only match as a fallback for instances without a namespace.
  The code also takes it for instances with one, so a missing deployment can read green
  (`MatchedElsewhereIff`, `MissingDeploymentReadsGreenExample`). The model follows the code.
- Once the workspace shows any card, a broken component on no sheet is missing from the fleet
  aggregate (`FleetNamesIff`, `UnplacedProblemExample`); a sheet of unknown cards can read worse
  than the fleet (`FleetIsAsBadAsItsSheetsIff`, `UnknownSheetExample`).
- Re-publishing an eval batch is a no-op exactly when the first publish pushed out none of its
  already stored runs (`RepublishIsQuietIff`, `MixedRetryExample`).
- The workspace revision starts over at a reset, so a save read before one can be accepted over
  a document its author never saw (`ResetLosesAnUpdateExample`). A read that adopts relationships
  returns a document the validator refuses exactly when a sheet goes over its connection cap
  (`AdoptedDocumentOkIff`, `OneTooManyExample`).
- `deepMerge` is associative exactly where no mapping is cut off by a scalar and not fully covered
  when it comes back (`AssociativeIff`), and the env overlay survives a save and a load exactly
  when each entry meets a checkable condition (`RoundTripIff`, `QuotesAreLost`).

## Assumptions

- Git objects are identified by content, so comparing blob ids is comparing bytes and two commits
  with equal parent, tree and message are the same commit.
- Each workspace request is one atomic step: the handlers take no lock around their
  read-compare-write. JSON written to the file reads back as the same value.
- The GitHub server refuses a second open pull request for the same head and base and one whose
  head adds nothing; whether it admits a merge is an input (`admitted`), and so is what rival
  writers push in between (`Rivals`).
- `_age_hours` is a function from a timestamp to an optional number of hours, the https link check
  and `str()` of a non-string JSON value are functions of their argument, and so is the file-size
  bound of the eval store; `str()` of a value that is not a string is never empty.

## Model

| member | source | states |
|---|---|---|
| Text.SplitOfJoin | plugin/gitops_emitter/gitrepo.py:353-383 | splitting on the separator gives back pieces that were joined without it |
| Text.JoinOfSplit | plugin/gitops_emitter/gitrepo.py:353-383 | joining the pieces of a string gives the string back |
| GitPaths.PartsOfSpelling | plugin/gitops_emitter/gitrepo.py:353-383 | a path in normal form is read back from its own spelling |
| GitPaths.StripIs | plugin/gitops_emitter/gitrepo.py:353-383 | stripping an allowed prefix takes away the slashes at its two ends and nothing else |
| GitPaths.CleanedAre | plugin/gitops_emitter/gitrepo.py:353-383 | the allowlist is exactly the stripped prefixes that are not blank |
| GitPaths.AssertWithin | plugin/gitops_emitter/gitrepo.py:353-383 | accepts exactly when the allowlist is not empty and every raw path is relative, free of `..` and inside a prefix; each refusal names a path that deserves it |
| GitModel.AncestorAntisymmetric | plugin/gitops_emitter/gitrepo.py:202-222 | fast-forwarding both ways means the same tip |
| GitModel.MergeKeepsBoth | plugin/gitops_emitter/gitrepo.py:260-294 | a rebase that goes through keeps every change of either side, path by path, and invents none |
| GitModel.MergeOntoBase | plugin/gitops_emitter/gitrepo.py:260-294 | rebasing onto the unmoved base gives back the same tree |
| GitModel.MergesIff | plugin/gitops_emitter/gitrepo.py:276-288 | a merge is refused exactly when some path was changed by both sides to different answers or a file of the outcome stands where another needs a directory; otherwise every path ends as ours where we changed it and as theirs elsewhere |
| GitModel.ApartMerges | plugin/gitops_emitter/gitrepo.py:264-288 | changes to different paths that are not in each other's way always merge |
| PublishSpec.WrittenCarries | plugin/gitops_emitter/gitrepo.py:642-667 | with one content per place, every file written is there afterwards |
| PublishSpec.BaseTestIsSound | plugin/gitops_emitter/gitrepo.py:420-443 | the delete-then-compare test never calls a tree current that lacks a desired file or has an extra one under a reconciled tree |
| PublishSpec.BaseTestDecidesDesired | plugin/gitops_emitter/gitrepo.py:420-443 | for well-spelled requests the test decides exactly that predicate |
| PublishSpec.EmptyCommitOn | plugin/gitops_emitter/gitrepo.py:438-443 | on a given tree an empty commit happens exactly when the tree is already as desired and the sweep deletes something it then writes back |
| PublishSpec.NoEmptyCommitIff | plugin/gitops_emitter/gitrepo.py:505-516 | no base whatever leads to an empty commit exactly when spellings are normal and contents consistent, or the request can never be written |
| PublishSpec.EmptyCommitWitness | plugin/gitops_emitter/gitrepo.py:304-331 | for every request outside that condition, the tree holding just its files is a base that does |
| PublishSpec.RespelledIsSwept | plugin/gitops_emitter/gitrepo.py:304-331 | every file spelled unlike its place under its request's own tree is such a request: it passes the allowlist and attempts an empty commit over the tree that already holds it |
| PublishSpec.EmptyCommitExample | plugin/gitops_emitter/gitrepo.py:304-331 | the smallest one: `x//a` under the reconciled tree `x` |
| PublishSpec.PublishFrame | plugin/gitops_emitter/gitrepo.py:304-331 | whatever an accepted request sweeps and writes, every file outside the allowed prefixes is byte-identical |
| PublishSpec.RemovalChanges | plugin/gitops_emitter/gitrepo.py:549-562 | a removal changes the tree exactly when one of its paths exists |
| PublishSpec.RemovalFrame | plugin/gitops_emitter/gitrepo.py:549-567 | an accepted removal leaves every file outside the allowed prefixes as it was |
| PublishSpec.PublishThenRemove | plugin/gitops_emitter/gitrepo.py:529-579 | removing what a publish added restores the tree exactly when nothing was there, nothing was swept, and every file written elsewhere was already right |
| HeadSpec.WantedIsUnder | plugin/gitops_emitter/gitrepo.py:476-494 | for normal spellings the string prefix test is containment of paths |
| HeadSpec.TreesReconciledIff | plugin/gitops_emitter/gitrepo.py:476-494 | the set comparison of a listing means nothing extra and no file in the tree's place |
| HeadSpec.HeadTestIff | plugin/gitops_emitter/gitrepo.py:454-494 | the whole head comparison said on trees: record up to line endings, extras by content, nothing extra |
| HeadSpec.NewlinesAt | plugin/gitops_emitter/gitrepo.py:454-475 | text mode reads a carriage return, alone or before a line feed, as one line feed |
| HeadSpec.OnHeadIs | plugin/gitops_emitter/gitrepo.py:454-475 | git resolves a leading `./` in a spelling and finds nothing under any other that is not normal |
| HeadSpec.HeadTestRightIff | plugin/gitops_emitter/gitrepo.py:454-475 | exactly when the text-mode record comparison agrees with the bytes |
| HeadSpec.StaleHeadExample | plugin/gitops_emitter/gitrepo.py:454-475 | an accepted request for an LF record and a CRLF head that passes the comparison and does not carry it |
| HeadSpec.DecideByDesired | plugin/gitops_emitter/gitrepo.py:400-526 | one predicate decides the three outcomes of PR mode, the pushed tree meets it, and no empty commit is tried |
| HeadSpec.DeliveredIsDesired | plugin/gitops_emitter/gitrepo.py:505-526 | the tree a publish commits is the one it was asked for, and is a proper tree |
| HeadSpec.ClearTreesStayClear | plugin/gitops_emitter/gitrepo.py:505-526 | the pushed tree has no file in the place of a reconciled tree exactly when the request lists none there and the base has none there, or one the sweep deletes |
| HeadSpec.SecondRunIsQuietIff | plugin/gitops_emitter/gitrepo.py:444-526 | exactly when an immediate second run finds its own head and pushes nothing, said on the record, the request and the base |
| HeadSpec.SecondRunPushesAgainExample | plugin/gitops_emitter/gitrepo.py:454-475 | an accepted one-file request whose second run pushes again |
| HeadSpec.DecideFrame | plugin/gitops_emitter/gitrepo.py:386-526 | a pushed head differs from its base only inside the allowed prefixes |
| GitHost.Host.Push | plugin/gitops_emitter/gitrepo.py:202-222 | accepted exactly on a fast-forward of an unguarded branch (or a no-op); moves that ref and no other |
| GitHost.Host.ForcePush | plugin/gitops_emitter/gitrepo.py:517-526 | unconditional short of protection; moves that ref and no other |
| GitHost.FirstOpen | plugin/gitops_emitter/forge.py:118-156 | the pull request looked up is open, for that head and base, and no earlier one is; none is found only when there is none |
| GitHost.Host.OpenPull | plugin/gitops_emitter/forge.py:159-212 | never a second open one for a head and base: the existing one is returned instead |
| GitHost.Host.Merge | plugin/gitops_emitter/forge.py:215-250 | a merge moves the base to the squash and closes that pull request; a refused one changes nothing |
| GitHost.SquashOfFreshHead | plugin/gitops_emitter/forge.py:215-250 | merging a head cut from the current base tip makes the base carry exactly the head's tree |
| GitHost.SquashesIff | plugin/gitops_emitter/forge.py:215-250 | exactly when a head can be squashed onto a base that has moved on, and what every path becomes |
| Publisher.WorkTree.SweepTree | plugin/gitops_emitter/gitrepo.py:304-331 | deletes every unlisted file below one tree and reports every deletion |
| Publisher.WorkTree.Reconcile | plugin/gitops_emitter/gitrepo.py:304-331 | the same over all reconciled trees; the report is empty exactly when nothing changed |
| Publisher.WorkTree.AllCarried | plugin/gitops_emitter/gitrepo.py:430-443 | the byte-identical test over the swept work tree |
| Publisher.WorkTree.WriteAll | plugin/gitops_emitter/gitrepo.py:642-667 | writes all files or stops exactly when a file stands where a directory is needed or the reverse |
| Publisher.StagedIsTheWorkTree | plugin/gitops_emitter/gitrepo.py:505-516 | the written and deleted paths together stage the delivered tree exactly |
| Publisher.CloneOrInit | plugin/gitops_emitter/gitrepo.py:157-199 | the branch's tree, or an empty work tree on a branch that does not exist |
| Publisher.PushWithRetry | plugin/gitops_emitter/gitrepo.py:260-294 | the outcome and the branch's new tip under any rival pushes; no other ref moves |
| Publisher.ReconcileAndCompare | plugin/gitops_emitter/gitrepo.py:420-443 | the sweep's effect and the no-op answer, as the base test decides it |
| Publisher.WriteAndStage | plugin/gitops_emitter/gitrepo.py:505-516 | the staged tree is the delivered tree whenever writing succeeds |
| Publisher.Publish | plugin/gitops_emitter/gitrepo.py:582-682 | the whole direct publish against its specification; a refused request moves nothing |
| Publisher.HeadParity | plugin/gitops_emitter/gitrepo.py:454-494 | the three-part comparison decides the head test |
| Publisher.PublishToHead | plugin/gitops_emitter/gitrepo.py:386-526 | the decision, and the head branch moved exactly when it is a push; every other ref untouched |
| Publisher.RemovedPresent | plugin/gitops_emitter/gitrepo.py:549-562 | removing the paths that exist removes all of them |
| Publisher.RemovePath | plugin/gitops_emitter/gitrepo.py:529-579 | the direct or head-branch removal against its specification |
| DirectRuns.ActIsGood | plugin/gitops_emitter/gitrepo.py:260-294 | every move of a writer keeps what is known of it and only fast-forwards the branch |
| DirectRuns.StepKeepsInv | plugin/gitops_emitter/gitrepo.py:260-294 | the invariant of a world of writers and outsiders is kept by every step |
| DirectRuns.EveryMoveGoesOn | plugin/gitops_emitter/gitrepo.py:260-294 | no move is left out: any writer's next move, and anything an outsider brings, continues a run |
| DirectRuns.OnlyFastForwards | plugin/gitops_emitter/gitrepo.py:260-294 | in every interleaving of any number of writers, each earlier tip stays an ancestor |
| DirectRuns.SettledStays | plugin/gitops_emitter/gitrepo.py:282-294 | a writer that has ended does nothing more |
| DirectRuns.NoLostUpdate | plugin/gitops_emitter/gitrepo.py:260-294 | in every interleaving a landed commit is the change of the request its writer was given, over the tip it was based or rebased on, after at most two pushes, and no later tip drops it |
| DirectRuns.MovingIsLanding | plugin/gitops_emitter/gitrepo.py:202-222 | a writer's move that changes the branch is its landing, one commit over the previous tip |
| DirectRuns.FailuresTouchNothing | plugin/gitops_emitter/gitrepo.py:271-294 | a writer that ends otherwise never moved the branch |
| DirectRuns.RunsKeepTheOperatorsFiles | plugin/gitops_emitter/gitrepo.py:353-383 | in every run a landed job left everything outside its prefixes as it found it |
| DirectRuns.LandedIsDesiredIff | plugin/gitops_emitter/gitrepo.py:260-294 | after a clean rebase the branch is as requested exactly when rivals left the already-right files and the reconciled trees alone |
| DirectRuns.LandedNotDesiredExample | plugin/gitops_emitter/gitrepo.py:264-269 | one accepted request, one rival edit, one clean rebase: a success that does not leave the files as published |
| Sequential.PushIsTheRest | plugin/gitops_emitter/gitrepo.py:260-294 | the method's push-rebase-push is the last three moves of a writer |
| Sequential.PublishIsOneWriter | plugin/gitops_emitter/gitrepo.py:582-682 | a direct publish against rivals is one writer of the interleaving model, same outcome and same tip |
| Sequential.RemoveIsOneWriter | plugin/gitops_emitter/gitrepo.py:529-579 | and so is a direct removal |
| Sequential.PlayIsSafe | plugin/gitops_emitter/gitrepo.py:260-294 | a job played against rivals only moves the branch forward, in at most two pushes |
| Sequential.PublishIsSafe | plugin/gitops_emitter/gitrepo.py:582-682 | what a caller of a direct publish may rely on, frame included |
| Sequential.PushBesideOthersIff | plugin/gitops_emitter/gitrepo.py:264-294 | how a push against others ends: straight through, a conflict exactly when the changes cannot be merged, a lost second race, or landed with both sides' changes, path by path |
| Sequential.PublishBesideOthersIff | plugin/gitops_emitter/gitrepo.py:582-682 | the same of a whole direct publish |
| Sequential.OthersPublishToo | plugin/gitops_emitter/gitrepo.py:264-288 | two agents published at once: the second still lands, its files as it wants them and everything else as the first left it |
| Sequential.QuietPublishSettles | plugin/gitops_emitter/gitrepo.py:420-443 | left alone, a publish lands the desired tree and the next one finds nothing to do |
| Sequential.QuietRemovalSettles | plugin/gitops_emitter/gitrepo.py:549-567 | left alone, a removal takes away exactly its paths, or finds none, and the next one finds none |
| PullRequestRuns.MergeCarriesTheHead | plugin/gitops_emitter/forge.py:215-250 | a merge is the head's own change carried onto the trunk |
| PullRequestRuns.SoundAfter | plugin/gitops_emitter/gitrepo.py:505-526 | every move of publishers, openers and mergers keeps the repository sound |
| PullRequestRuns.AlwaysSound | plugin/gitops_emitter/forge.py:118-212 | in every history each head is one commit over a tip of the trunk and no head has two open pull requests |
| PullRequestRuns.OnlyMergesMoveTheTrunk | plugin/gitops_emitter/gitrepo.py:564-575 | the trunk only fast-forwards and only a merge moves it |
| PullRequestRuns.MergeMakesQuietIff | plugin/gitops_emitter/harness/hermes.py:1022-1149 | exactly when the publish after a merge finds nothing to do |
| PullRequestRuns.FreshMergeIsQuiet | plugin/gitops_emitter/harness/hermes.py:1022-1149 | merging a head cut from the current tip makes the next publish a no-op |
| PullRequestRuns.MergesKeepTheOperatorsFiles | plugin/gitops_emitter/gitrepo.py:415-418 | a merge leaves everything outside its job's prefixes as it was |
| PullRequestRuns.ChoosesByDesired | plugin/gitops_emitter/gitrepo.py:420-526 | in every history, against a head made for the same record, a publisher is done exactly when base or head is as desired or nothing can be written, and otherwise holds a commit that is |
| PullRequestCalls.CallIsMoves | plugin/gitops_emitter/harness/hermes.py:1060-1149 | a whole call - decide, force, open, merge - is a run of moves of the concurrent protocol that ends in the very refs and pull requests the call leaves |
| PullRequestCalls.PublishIsMoves | plugin/gitops_emitter/harness/hermes.py:1060-1149 | so what a publish promises of the server in PR mode is such a run |
| PullRequestCalls.RemovalIsMoves | plugin/gitops_emitter/decommission_cli.py:129-169 | and so is what a decommission promises |
| PullRequestCalls.CallsAreAHistory | plugin/gitops_emitter/harness/hermes.py:1060-1149 | any row of publishes and removals on a server they had not touched is a history of the protocol |
| PullRequestCalls.CallsKeepHeadsSound | plugin/gitops_emitter/gitrepo.py:505-526 | after any row of calls each head branch is one request's change over a tip the base has or had, and no head has two open pull requests |
| Proposals.FindOrOpen | plugin/gitops_emitter/decommission_cli.py:148-169 | the pull request found or opened and the list it is in; one open per head and base, before and after |
| Proposals.Propose | plugin/gitops_emitter/harness/hermes.py:1095-1149 | the answer, the refs and the pull requests a proposal leaves |
| Proposals.ProposingIsAProposal | plugin/gitops_emitter/harness/hermes.py:1095-1149 | of those: without auto-merge it is never merged, with it it is merged exactly when the server admits it and the changes merge; the base moves only by the squash of exactly the proposed commit, no other ref moves, and the pull request is the one found or one opened under this title |
| Proposals.PullingIsByPull | plugin/gitops_emitter/harness/hermes.py:1069-1149 | from any decision: which answer, and when; the base moves by the merge alone, to the squash of the commit decided on - pushed or found - and a merge of a pushed commit brings exactly its tree; nothing but the base and the head is touched |
| Records.PublishByPull | plugin/gitops_emitter/harness/hermes.py:1060-1149 | the PR-mode table, answer and server state exactly; a refused request changes nothing |
| Records.PublishRecord | plugin/gitops_emitter/harness/hermes.py:1022-1149 | which mode runs, and what each leaves of every ref and of the pull requests |
| Records.ListBySource | plugin/gitops_emitter/decommission_cli.py:51-93 | the names of exactly the records of a source and subdirectory, in order |
| Records.ResolveName | plugin/gitops_emitter/decommission_cli.py:96-142 | the given name or the only match; otherwise no match, ambiguous or a bad name |
| Records.RemoveByPull | plugin/gitops_emitter/decommission_cli.py:143-169 | in PR mode the base loses the paths by the merge alone, and loses exactly those; answer and server state exactly |
| Records.RemoveRecord | plugin/gitops_emitter/decommission_cli.py:129-169 | the removal in either mode, failures included: the direct story on the one branch, or the PR-mode one; pull requests and other refs framed |
| Records.Decommission | plugin/gitops_emitter/decommission_cli.py:96-178 | which name it works on; no match, several, a bad name or another forge change nothing; otherwise the removal, and the sticky override goes exactly when that did not fail |
| Emission.OnlyTheDashboardStays | plugin/gitops_emitter/harness/hermes.py:969-1001 | every file an emit writes lies under the directories a decommission removes, or is a dashboard file |
| Emission.EmitThenDecommissionIff | plugin/gitops_emitter/decommission_cli.py:129-147 | exactly when decommissioning undoes an emit, for any configured paths |
| Emission.EmitIsUndoneIff | plugin/gitops_emitter/decommission_cli.py:129-147 | for a tidy emit: exactly when the repository held nothing of the name and its dashboard sources were already the emitted ones |
| Emission.FirstDashboardSurvives | plugin/gitops_emitter/harness/hermes.py:761-835 | on an empty repository that is exactly when the emit has no dashboard |
| Emission.DashboardSurvivesExample | plugin/gitops_emitter/harness/hermes.py:761-835 | agent `a` under the default path with one dashboard file: accepted, writable, and not undone |
| Emission.TidyIsNormal | plugin/gitops_emitter/harness/hermes.py:969-1001 | a tidy emit meets every condition the publisher's theorems ask of a request |
| Emission.TidyIsWithin | plugin/gitops_emitter/harness/hermes.py:970-976 | a tidy emit and its removal pass the emitter's own allowlist |
| EvalStore.Store.Sift | control-plane/nexus/plugin_api.py:6462-6470 | the seen-set loop keeps the first record of each unseen run, in order |
| EvalStore.Store.StoreComponent | control-plane/nexus/plugin_api.py:6461-6482 | one component's new file, or the size refusal that leaves it alone |
| EvalStore.Store.StoreBatch | control-plane/nexus/plugin_api.py:6450-6483 | a publish merges every component, or stops exactly at the first whose file would be too large; written and deduplicated add up to the batch |
| EvalStore.SettledAt | control-plane/nexus/plugin_api.py:6461-6482 | each named component is merged with its own part of the batch and no other is touched |
| EvalStore.BatchConserves | control-plane/nexus/plugin_api.py:6473-6483 | size after plus dropped is size before plus written |
| EvalStore.BatchIsItsParts | control-plane/nexus/plugin_api.py:6457-6459 | grouping by component loses no record |
| EvalStore.FreshIsFresh | control-plane/nexus/plugin_api.py:6463-6470 | the kept records have distinct runs, are exactly the unseen runs, and none was stored |
| EvalStore.FreshAreTheFirst | control-plane/nexus/plugin_api.py:6463-6470 | each kept record is the batch's first of its run, and they stay in batch order |
| EvalStore.MergeKeepsLog | control-plane/nexus/plugin_api.py:6473-6476 | a publish keeps a log within 200 records with distinct runs, new ones first |
| EvalStore.SettledKeepsStore | control-plane/nexus/plugin_api.py:6461-6482 | complete or cut short, a publish keeps every log so |
| EvalStore.RepublishIsQuietIff | control-plane/nexus/plugin_api.py:6450-6483 | publishing the same batch again changes nothing exactly when no already stored run of it was pushed out |
| EvalStore.RetryOfNewRunsIsQuiet | control-plane/nexus/plugin_api.py:6206-6207 | because the batch cap is below the log cap, a retry of new runs is a no-op |
| EvalStore.MixedRetryExample | control-plane/nexus/plugin_api.py:6473-6476 | a mixed batch on a full log whose retry is not |
| EvalStore.StoreAlwaysOk | control-plane/nexus/plugin_api.py:6450-6483 | after any history of publishes every log is bounded with distinct runs |
| EvalStore.RetriedPublishIsQuiet | control-plane/nexus/plugin_api.py:6450-6483 | after any history, a retried publish of new runs leaves the files exactly as they were |
| Levels.Rollup | control-plane/nexus/plugin_api.py:1805-1813 | the ladder's loop computes the worst level |
| Levels.WorstIsTheMaximum | control-plane/nexus/plugin_api.py:1805-1813 | the result is one of the observed levels and none is worse, unknown when nothing is observed; nothing else has that property |
| Levels.WorstDependsOnTheSet | control-plane/nexus/plugin_api.py:1805-1813 | order and repetition of the observations do not matter |
| Levels.GreenIff | control-plane/nexus/plugin_api.py:1805-1813 | green means something was observed and all of it was green |
| Levels.MakeSource | control-plane/nexus/plugin_api.py:1838-1871 | an unconfigured or failed source reads unknown whatever its adapter says |
| Sorting.SortedIsAPermutation | control-plane/nexus/plugin_api.py:3957-3979 | sorting keeps every element exactly as often |
| Sorting.SortedIsInOrder | control-plane/nexus/plugin_api.py:3957-3979 | and puts it in order, under any total order |
| Sorting.AtMostIff | control-plane/nexus/plugin_api.py:3957-3979 | strings compare by the first place they differ, a beginning before what it begins |
| Collector.Adapters.Collect | control-plane/nexus/plugin_api.py:4184-4296 | what a poll reports for every kind and what is remembered afterwards |
| Collector.MemoryIsTheLastSuccess | control-plane/nexus/plugin_api.py:4175-4296 | over any history of polls, what is remembered of an adapter is its most recent success |
| Collector.NeverGreenUnobserved | control-plane/nexus/plugin_api.py:1838-1871 | over any history, a source not configured or failed is unknown and a configured one is what its adapter just answered |
| Collector.BrokenServesTheLast | control-plane/nexus/plugin_api.py:4389-4403 | over any history, a failing adapter's rows are its last success, level and time included, marked stale |
| Collector.GreenWasObserved | control-plane/nexus/plugin_api.py:4184-4296 | a green row was reported green by the most recent success, at the time it shows |
| Overlay.ArgoIndex | control-plane/nexus/plugin_api.py:3726-3759 | the three indexes answer exactly by destination, by name, and by repeated name |
| Overlay.MatchInstance | control-plane/nexus/plugin_api.py:3821-3836 | the four-way match gives the level of the matched Application, else unknown |
| Overlay.JoinComponent | control-plane/nexus/plugin_api.py:3808-3905 | one component's record and its instances' levels |
| Overlay.BuildOverlay | control-plane/nexus/plugin_api.py:3762-3932 | the whole overlay: components, instances, sources and the stale mark |
| HealthClaims.MatchIs | control-plane/nexus/plugin_api.py:3821-3836 | which Application an instance stands for, and when for none |
| HealthClaims.MatchedElsewhereIff | control-plane/nexus/plugin_api.py:3823-3836 | exactly when an instance is matched to an Application deployed elsewhere |
| HealthClaims.MissingDeploymentReadsGreenExample | control-plane/nexus/plugin_api.py:3823-3836 | a component with no deployment in its namespace that reads green |
| HealthClaims.ComponentIsGreenIff | control-plane/nexus/plugin_api.py:3808-3905 | a component is green exactly when resolved, read, and every one of its instances is matched to a healthy, synced Application |
| HealthClaims.ComponentIsUnhealthyIff | control-plane/nexus/plugin_api.py:3808-3905 | a component is unhealthy exactly when it is resolved and some instance is matched to a degraded or missing Application |
| HealthClaims.ArgoRowsAre | control-plane/nexus/plugin_api.py:3838-3920 | the status and time of the fleet-wide and of a component's Argo row in every case |
| HealthClaims.RecordIs | control-plane/nexus/plugin_api.py:3808-3905 | an id's record is that of its last component |
| HealthClaims.InstancesAre | control-plane/nexus/plugin_api.py:3821-3836 | an instance under an id of its own is listed at its own level |
| HealthClaims.OverlayIsHonest | control-plane/nexus/plugin_api.py:3762-3932 | after any history of polls, no source of the overlay is green for something not configured or failed, and without Applications no component is other than unknown |
| HealthClaims.StaleIff | control-plane/nexus/plugin_api.py:3927 | the overlay is marked stale exactly when an adapter failed after an earlier success or answered stale itself |
| HealthClaims.GreenArgo | control-plane/nexus/plugin_api.py:3907-3920 | the fleet-wide Argo source is green exactly when there are components and all are green |
| HealthClaims.GreenSystemWasObserved | control-plane/nexus/plugin_api.py:4008-4037 | the platform aggregate is green only if every component is and each other platform source was reported green by its last success |
| Rollups.CollectGroups | control-plane/nexus/plugin_api.py:4067-4076 | the group loop: each group's known members, and who has a parent |
| Rollups.UnionOfSheets | control-plane/nexus/plugin_api.py:3982-4005 | every component some sheet shows, once, in order |
| Rollups.BuildRollups | control-plane/nexus/plugin_api.py:4040-4122 | all named aggregates, the Backups dot among them |
| RollupClaims.EntryIsFaithful | control-plane/nexus/plugin_api.py:3957-3979 | an aggregate is the worst of its known members and names exactly those needing attention, in order; it names one exactly when it needs attention itself |
| RollupClaims.DirectoriesAre | control-plane/nexus/plugin_api.py:4057-4066 | the two directories sum up exactly the plan's agents and applications |
| RollupClaims.GroupsAre | control-plane/nexus/plugin_api.py:4067-4082 | which groups have an aggregate, over exactly their children, and who is ungrouped |
| RollupClaims.ShelvesAre | control-plane/nexus/plugin_api.py:4083-4101 | which bundles have a shelf, over exactly their members, and which agents are unbundled |
| RollupClaims.SheetsAndFleetAre | control-plane/nexus/plugin_api.py:4102-4122 | each sheet sums up what its cards show, and the Backups entry is the view's dot |
| RollupClaims.FleetIs | control-plane/nexus/plugin_api.py:4105-4113 | the fleet sums up what any sheet shows, or everything |
| RollupClaims.SystemIs | control-plane/nexus/plugin_api.py:4008-4037 | the platform's entry names exactly its workloads in trouble and is the worst of the six sources |
| RollupClaims.BucketsPartitionTheFleet | control-plane/nexus/plugin_api.py:4067-4082 | every component is in some group or ungrouped, and buckets hold nothing else |
| RollupClaims.BucketsRollUpToTheFleet | control-plane/nexus/plugin_api.py:4067-4082 | the worst over the non-empty groups and the ungrouped bucket is the worst of the fleet |
| RollupClaims.OverlayOrder | control-plane/nexus/plugin_api.py:3905-3929 | every overlay lists exactly the components it has records of, so the claims about buckets hold of it |
| RollupClaims.FleetMembersAre | control-plane/nexus/plugin_api.py:4105-4113 | the fleet aggregate covers exactly what some sheet shows, everything when none shows anything |
| RollupClaims.FleetIsAsBadAsItsSheetsIff | control-plane/nexus/plugin_api.py:4105-4113 | exactly when the fleet is at least as bad as a sheet |
| RollupClaims.UnknownSheetExample | control-plane/nexus/plugin_api.py:4105-4113 | a sheet of one unobserved card reads unknown beside a green fleet |
| RollupClaims.FleetNamesIff | control-plane/nexus/plugin_api.py:4108-4113 | exactly when the fleet names a component that needs attention |
| RollupClaims.UnplacedProblemExample | control-plane/nexus/plugin_api.py:4108-4113 | a broken component on no sheet beside a green fleet |
| RollupClaims.ShelvesCoverTheAgents | control-plane/nexus/plugin_api.py:4083-4101 | the bundle shelves and the unbundled one together are as bad as the worst agent |
| Routines.RestoreShape | control-plane/nexus/plugin_api.py:2372-2394 | hook, else a claimed volume other than the sink, else nothing can put the artifact back |
| Routines.OwnerIsTheSubject | control-plane/nexus/plugin_api.py:2738-2748 | a routine belongs to the resident mentioned last in its name, the longest such, else to an agent, whenever its namespace has a resident |
| Routines.RFindIs | control-plane/nexus/plugin_api.py:2738-2748 | the place compared is the last one where the name occurs |
| BackupClaims.ResidentsAre | control-plane/nexus/plugin_api.py:2721-2734 | who lives in a namespace: the components with an instance there, else the first profile placed there |
| Routines.ArtifactsShareTheVerdict | control-plane/nexus/plugin_api.py:2472-2496 | an artifact is called restorable only because the backup it belongs to was restored |
| Backups.RecordedRows | control-plane/nexus/plugin_api.py:2629-2661 | the rows of the recorded components, and whether a host archive was among them |
| Backups.PlatformRows | control-plane/nexus/plugin_api.py:2575-2698 | all rows of a platform record, or the one that says none was ever taken |
| BackupsDot.RoutineGreenIff | control-plane/nexus/plugin_api.py:2780-2841 | a routine's row is green exactly when the routine is current or running and could be put back |
| Backups.JoinRows | control-plane/nexus/plugin_api.py:2850-2872 | ledger rows fold onto the routine that fills the sink, every other row joins |
| Backups.Unprotected | control-plane/nexus/plugin_api.py:3075-3130 | exactly the namespaced components no routine runs beside |
| Backups.ProjectBackups | control-plane/nexus/plugin_api.py:2701-2893 | the whole view, rows worst first |
| BackupsDot.DotAgreesWithPage | control-plane/nexus/plugin_api.py:4297-4311 | the health poll's dot equals the page's - level, summary, members - read at one observation time, or at two between which no age crosses its threshold |
| BackupsDot.DotMovesWithTimeExample | control-plane/nexus/plugin_api.py:2445-2469 | a last success that passes the threshold between the two readings makes them differ |
| BackupsDot.DotIsGreenIff | control-plane/nexus/plugin_api.py:4125-4168 | the dot is green exactly when a fresh, restore-verified platform record exists, every routine is current or running with a restore path, and every namespaced component is covered |
| BackupsDot.PlatformGreenIff | control-plane/nexus/plugin_api.py:2575-2698 | the platform's rows are green exactly when the record exists, is fresh and is restore-verified |
| BackupsDot.RoutinesGreenIff | control-plane/nexus/plugin_api.py:2445-2469 | the routine rows are green exactly when each routine protects |
| BackupsDot.UncoveredIsNeverGreen | control-plane/nexus/plugin_api.py:3075-3130 | nothing is listed uncovered exactly when everything is covered, and nothing uncovered is green |
| BackupsDot.DotNamesEveryProblem | control-plane/nexus/plugin_api.py:4140-4157 | the dot's members are exactly the rows in trouble, the uncovered agents and the never-restored artifacts |
| BackupClaims.ListedIff | control-plane/nexus/plugin_api.py:3075-3130 | an agent or application is listed uncovered exactly when it runs somewhere and no routine runs there: an agent at degraded, an application at unknown |
| BackupClaims.UnguardedAgentIsNamed | control-plane/nexus/plugin_api.py:4140-4157 | such an agent is named by the dot, which is then degraded or worse |
| BackupClaims.UnguardedApplicationIsNotAccused | control-plane/nexus/plugin_api.py:4140-4157 | such an application keeps the dot from green and is not accused |
| BackupClaims.RunsInIff | control-plane/nexus/plugin_api.py:3103-3112 | a component runs where its instances do and where its profile's first placement is |
| BackupClaims.PageIsWorstFirst | control-plane/nexus/plugin_api.py:2870-2872 | the page lists worse rows first and rows of one level by id |
| BackupRows.NeverTakenIsRed | control-plane/nexus/plugin_api.py:2597-2611 | without a platform backup there is one red row, and the dot is red and names it |
| BackupRows.RecordRowsAre | control-plane/nexus/plugin_api.py:2612-2698 | the rows of a record, field by field: which components, which ledger claims, and the row that carries the verdict |
| BackupRows.RoutineSays | control-plane/nexus/plugin_api.py:2780-2841 | the fields of a routine's row |
| BackupRows.GroupIs | control-plane/nexus/plugin_api.py:2803-2808 | whose group a routine is in |
| BackupRows.ArtifactIs | control-plane/nexus/plugin_api.py:2472-2496 | which verdict a routine's artifact carries, and when it is unmeasured |
| BackupRows.RunsAre | control-plane/nexus/plugin_api.py:2526-2559 | a routine's own Jobs, newest first, at most ten, none newer left out |
| BackupRows.BundleIs | control-plane/nexus/plugin_api.py:3061-3072 | a namespace belongs to the last bundle that claims it |
| BackupRows.FirstClaimedIs | control-plane/nexus/plugin_api.py:3115 | an uncovered component is shelved under the first claimed namespace it runs in |
| BackupRows.SinksAre | control-plane/nexus/plugin_api.py:2842-2846 | a sink belongs to the last routine that writes to it |
| BackupRows.SinkNamedIff | control-plane/nexus/plugin_api.py:2850-2863 | a sink is named on a routine's row exactly when the ledger lists it and that routine fills it |
| BackupRows.JoinedKeeps | control-plane/nexus/plugin_api.py:2850-2869 | routines keep their rows but for the sink, and every other platform row joins once, in order |
| BackupRows.AttributedIs | control-plane/nexus/plugin_api.py:2864-2869 | what a platform row takes from its namespace |
| WorkspaceValidator.CheckItems | control-plane/nexus/plugin_api.py:5803-5818 | the seen-set loop accepts exactly lists within the cap whose items are fine and have distinct keys |
| WorkspaceValidator.CheckGroups | control-plane/nexus/plugin_api.py:5773-5799 | the claimed-set loops accept exactly groups whose members never repeat |
| WorkspaceValidator.EveryMemberHasOneHome | control-plane/nexus/plugin_api.py:5792-5798 | no member is listed twice, in one group or in two |
| WorkspaceValidator.CheckLists | control-plane/nexus/plugin_api.py:5656-5799 | the lists of a sheet, each by its own rules |
| WorkspaceValidator.ValidateSheet | control-plane/nexus/plugin_api.py:5618-5800 | accepts exactly valid sheets with a new id and returns what is kept of them |
| WorkspaceValidator.ValidateWorkspace | control-plane/nexus/plugin_api.py:5568-5615 | accepts exactly the documents of the declarative specification and returns what is kept of them |
| WorkspaceClean.CleanSheetAt | control-plane/nexus/plugin_api.py:5634-5655 | which keys a cleaned sheet has, and what is under each |
| WorkspaceClean.CleanAt | control-plane/nexus/plugin_api.py:5602-5615 | which keys a cleaned document has, and what is under each |
| WorkspaceClean.CleanIsIdempotent | control-plane/nexus/plugin_api.py:5568-5800 | the validator accepts its own output and returns it unchanged |
| WorkspaceClean.CleanSheetKeeps | control-plane/nexus/plugin_api.py:5634-5800 | every field of a cleaned sheet: as it was sent, by its named default, or dropped |
| WorkspaceClean.CleanKeeps | control-plane/nexus/plugin_api.py:5602-5615 | every field of a cleaned document, and every sheet in its place |
| WorkspaceClaims.AcceptedIsClosed | control-plane/nexus/plugin_api.py:5568-5800 | the closed allowlist: no unknown key at any depth of an accepted document's sheets, nor at its top |
| WorkspaceClaims.ItemsAreNamedAndPlaced | control-plane/nexus/plugin_api.py:5393-5448 | everything placed is on the canvas and everything named has a label for an id |
| WorkspaceClaims.IdsAreDistinct | control-plane/nexus/plugin_api.py:5803-5818 | no two items of a list share an id |
| WorkspaceClaims.SheetsAreDistinct | control-plane/nexus/plugin_api.py:5568-5615 | at most eight sheets, under distinct ids |
| WorkspaceClaims.ConnectionWords | control-plane/nexus/plugin_api.py:5386-5448 | the kind and the arrows of an accepted connection may be set to exactly these words |
| WorkspaceClaims.EndpointsAre | control-plane/nexus/plugin_api.py:5393-5448 | and its ends to exactly a component, a shape or a text, within 70 characters |
| WorkspaceClaims.CardWords | control-plane/nexus/plugin_api.py:5659-5668 | the display modes of a card |
| WorkspaceClaims.ShapeWords | control-plane/nexus/plugin_api.py:5821-5841 | the shapes, |
| WorkspaceClaims.ShapeColors | control-plane/nexus/plugin_api.py:5821-5841 | their colours, |
| WorkspaceClaims.TextWords | control-plane/nexus/plugin_api.py:5842-5850 | and the sizes and fonts of texts |
| WorkspaceClaims.ObjectIcon | control-plane/nexus/plugin_api.py:5737-5741 | the icons an authored object may have |
| WorkspaceClaims.EnvironmentIs | control-plane/nexus/plugin_api.py:5588-5590 | the environments a document may name |
| Relationships.FreeFrom | control-plane/nexus/plugin_api.py:5872-5873 | the search for a free `conn-N` ends at the first free number |
| Relationships.AdoptRelationships | control-plane/nexus/plugin_api.py:5852-5878 | the loop with its one running counter computes the adoption |
| Relationships.AdoptDraws | control-plane/nexus/plugin_api.py:5852-5878 | existing connections stay as a prefix, exactly the eligible pairs are drawn besides, each once, under distinct ids |
| Relationships.AddedAreNew | control-plane/nexus/plugin_api.py:5865-5869 | no self-loop is added and no added pair is drawn anywhere else |
| Relationships.DrawnIff | control-plane/nexus/plugin_api.py:5861-5878 | after adoption a pair is drawn exactly when it was before or the plan relates the two, both cards of the sheet under well-formed, different ids |
| Relationships.AddedDraw | control-plane/nexus/plugin_api.py:5868-5878 | every added connection draws such a relationship under a fresh `conn-N` with the caption's first 200 characters |
| Relationships.AdoptIsIdempotent | control-plane/nexus/plugin_api.py:5852-5878 | adopting again adds nothing |
| Adoption.FreeIsSmall | control-plane/nexus/plugin_api.py:5872-5874 | with n ids in use the search stops at n + 1 at the latest |
| Adoption.AddedAreOk | control-plane/nexus/plugin_api.py:5852-5878 | within the cap every added connection passes the validator |
| Adoption.AdoptedSheetOkIff | control-plane/nexus/plugin_api.py:5852-5878 | a valid sheet is valid after adoption exactly when existing and new connections fit the cap |
| Adoption.AdoptedDocumentOkIff | control-plane/nexus/plugin_api.py:5929-5948 | a document read with adoption can be saved again exactly when every sheet fits |
| Adoption.OneTooManyExample | control-plane/nexus/plugin_api.py:5929-5948 | a full, valid sheet and one adopted relationship: the document read is one the validator refuses |
| WorkspaceStore.Store.Read | control-plane/nexus/plugin_api.py:5929-5950 | the default, the stored document, or the stored document with relationships adopted on every sheet |
| WorkspaceStore.Store.Put | control-plane/nexus/plugin_api.py:6118-6145 | too big, rejected, conflict with the current document, or stored with the next revision |
| WorkspaceStore.Store.Delete | control-plane/nexus/plugin_api.py:6148-6163 | the file is gone |
| WorkspaceStore.StoreAlwaysOk | control-plane/nexus/plugin_api.py:6118-6145 | in every run the stored file validates and its revision is at least one |
| WorkspaceStore.HandlersFollowTheRun | control-plane/nexus/plugin_api.py:6118-6145 | in every run the handler answers and stores exactly what compare-and-set says |
| WorkspaceStore.RepliesAre | control-plane/nexus/plugin_api.py:6118-6145 | which of the four answers a save gets, and what it carries |
| WorkspaceStore.StampedByTheServer | control-plane/nexus/plugin_api.py:6133-6144 | revision, time, author and flags of a stored document are the server's, the rest the client's |
| WorkspaceStore.ReadNeverFallsBack | control-plane/nexus/plugin_api.py:5929-5950 | while there is a file a read never falls back to the default |
| WorkspaceStore.AdoptedSays | control-plane/nexus/plugin_api.py:5929-5948 | an adopting read changes each sheet's connections and marks the document, nothing else |
| WorkspaceStore.RevisionNamesTheFile | control-plane/nexus/plugin_api.py:6124-6144 | between resets the revision never falls and one revision names one file |
| WorkspaceStore.SavedOverWhatWasRead | control-plane/nexus/plugin_api.py:6124-6144 | between resets a save is accepted only over the very file its author read |
| WorkspaceStore.OneSavePerRevision | control-plane/nexus/plugin_api.py:6124-6144 | between resets at most one save per revision is accepted |
| WorkspaceStore.ResetLosesAnUpdateExample | control-plane/nexus/plugin_api.py:6148-6163 | across a reset a save is accepted over a document its author never saw |
| WorkspaceStore.MarkerIsThePayloads | control-plane/nexus/plugin_api.py:5610-5612 | a save stores the adoption marker exactly when its payload carries it |
| WorkspaceStore.NoLaterReadAdopts | control-plane/nexus/plugin_api.py:5929-5948 | once the marker is stored and clients keep it, no later read adds a connection |
| DeepMerge.Deepen | cli/src/lib.ts:547-568 | the loop over the right layer's keys computes the merge |
| DeepMerge.MergePathwise | cli/src/lib.ts:545-568 | path by path: the right layer decides wherever it holds the path or cuts it off, else the left |
| DeepMerge.ShapesDetermine | cli/src/lib.ts:545-568 | the shapes along all paths determine a value, so the path-wise meaning is complete |
| DeepMerge.AbsorbedIff | cli/src/lib.ts:547-568 | the left layer adds nothing exactly when the right one covers all its paths |
| DeepMerge.MergeIsIdempotent | cli/src/lib.ts:547-568 | applying a layer twice is applying it once |
| DeepMerge.AssociativeIff | cli/src/lib.ts:547-568 | grouping does not matter exactly when every clash of mapping, other, mapping is covered |
| DeepMerge.AssociativeWithoutClashes | cli/src/lib.ts:547-568 | in particular without such a clash |
| DeepMerge.GroupingMattersExample | cli/src/lib.ts:547-568 | three layers where it does matter |
| Dotenv.ParseDotenv | cli/src/lib.ts:369-387 | the loop over lines parses the text |
| Dotenv.SaveEnvOverlay | cli/src/lib.ts:405-417 | every key once, in order, one line each |
| Dotenv.LineReadsBack | cli/src/lib.ts:372-385 | how a printed line reads back: lost, shortened, or its key with the trimmed and unquoted value |
| Dotenv.ExportIsRead | cli/src/lib.ts:372-385 | an exported assignment reads as the assignment |
| Dotenv.RoundTripIff | cli/src/lib.ts:369-417 | an overlay survives a save and a load exactly when each entry is fit to be saved |
| Dotenv.QuotesAreLost | cli/src/lib.ts:380-384 | an otherwise fit value in quotes comes back without them |
| Dotenv.QuotesAreLostExample | cli/src/lib.ts:380-384 | one such entry |

## Left out

- Running git, HTTP, kubectl and the file system; tokens, cookies, audit logs and message text.
- Publisher: symlinks, file modes, path quoting, pathspec magic, `.gitignore`, records that are not UTF-8, hunk-level merging inside one file, empty directories left above a replaced tree, and the order of the deletion report.
- Publisher: a rebase onto an unrelated history is one path-wise merge, and only the tip commit of a writer is replayed; that is all a writer ever has.
- Publisher.PublishToHead: rivals on the head branch are in the histories of `PullRequestRuns`, not in this method.
- PullRequestCalls.CallsAreAHistory: it starts from a server without pull requests or head branches, as the histories do.
- Emission: which dashboard files there are, their validation and the symlink refusals; an emit is the bytes it carries.
- GitHost.Host.Merge: the "(#n)" suffix of a squash message and the server's review rules, beyond `admitted`.
- Eval store: record validation, publish tokens and the wording of errors; `fits` stands for the file-size bound.
- EvalStore.Store.StoreBatch: components are visited in order of first mention, as the source's dictionary does; records of other shapes in a hand-edited file are not modelled.
- Health: the adapters' own arithmetic (alerts, probes, queues, eval verdicts, reconciliation phases), links, reasons and summaries; level and status values outside the closed sets.
- Collector.Adapters.Collect: the adapters' answers are inputs; threads and time limits only decide which of answered, unwired or broken each one is.
- Backups: annotations, schedules, checksums, sizes, titles, counts and reason texts; how a Job's conditions give its run state.
- Backups: the row and the sink bookkeeping of one source loop are two methods here.
- Workspace: the projected default document, roles, export, and the two handlers overlapping inside their read-compare-write.
- Workspace: keys the handlers know are constructors of `Key`, any other key is `Other(name)`; the https check is a parameter.
- Relationships.AdoptRelationships: a plan endpoint that is not a string is `None`; one that cannot be hashed, which would raise in the source, is not told apart.
- DeepMerge.Deepen: lists, scalars and null are one kind of value; the key `__proto__` is not special.
- Dotenv.ParseDotenv: the key `__proto__` is not special, and text is code points rather than UTF-16 units.
- CLI dispatch, layout loading, generators, the user interface and the remaining projections, which would only add easy members.
