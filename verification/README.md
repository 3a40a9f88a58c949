# Verified model of the channel installer, its formats and its bridges

The installer keeps a release channel for each of its two commands: release directories, the links
`current` and `previous`, leases of running sessions, a guard shared by launchers and garbage
collection, an installer lock and a replayable transaction record. Around it stand an archive walker,
two tree digests, a launcher with quoted paths, a start screen that cuts coloured text, a crash-safe
save of project workflows and two bridges that run prompts on worker threads. This project models
these parts in Dafny and proves what they are for.

| file | what it holds |
|---|---|
| `Guard.dfy` | the launch/GC guard as a machine over single file-system accesses and process probes, any number of processes, crashes anywhere, and exactly which runs keep it exclusive |
| `Channel.dfy` | the whole channel as a machine: runners, installer, replay, garbage collection, built on the guard |
| `ChannelSafety.dfy` | the invariant of that machine in every run and the proof that every step keeps it |
| `ChannelRuns.dfy` | what follows over every run, however the guard is disturbed: links, replay, the pair as an atomic register, progress |
| `ChannelWork.dfy` | what one rollback, installation, session, failure or leftover record does when it runs undisturbed, exactly |
| `ChannelCollect.dfy` | what one undisturbed garbage collection leaves, exactly |
| `ChannelLaunch.dfy` | launches against the collector's accounting of leases, and what the guard contributes to it |
| `ChannelSessions.dfy` | running sessions keep their releases in every run; who can lose one instead, and what a reaper could see of it |
| `ChannelLoss.dfy` | the run in which a launcher, doomed by then, loses the release it resolved |
| `InstallerLock.dfy` | the installer lock, and exactly which runs keep it exclusive |
| `Bytes.dfy`, `Archive.dfy` | bytes, UTF-8, octal fields, and the archive walk with its loops |
| `ArchiveFields.dfy` | what text, octal and sparse-size fields say: UTF-8, the white space of ECMAScript, digits, record lines |
| `ArchiveGrammar.dfy` | an independent grammar of acceptable archives, and acceptance if and only if it is met |
| `ArchiveWriter.dfy` | a ustar writer and the round trip through the walk |
| `Text.dfy`, `TreeDigest.dfy` | UTF-8, UTF-16 order, decimal numerals, the record streams that are hashed and their unique decoding |
| `TreeForms.dfy` | which permission bits count, how a record is laid out, in which order a tree is written |
| `TreeAgreement.dfy` | equal streams if and only if the trees agree path by path |
| `DigestWalk.dfy` | the two recursive walks that feed the hash |
| `ReplaceLink.dfy` | link replacement under call failures and kills |
| `Snapshot.dfy` | the pinned snapshot and the bounded read, under short reads and writes |
| `ShellQuote.dfy` | launcher lines of plain, quoted and expanded parts against a POSIX shell tokenizer |
| `Ansi.dfy` | cutting text that holds escape sequences |
| `Save.dfy` | the workflow save, under short writes, failures, kills and power loss |
| `Prompt.dfy` | the two-thread prompt protocol of the ACP bridge |
| `Terminus.dfy`, `Tmux.dfy` | the Terminus-2 run loop and its terminal session |

What several threads or processes interleave (guard, channel, installer lock, prompt protocol) is a
machine whose actions are single accesses to shared state: `Enabled` says when an action may happen,
`Exec` what it does, a run is a sequence of actions, and every property below quantifies over all runs.
What one thread does to files, buffers or counters is a class or a loop, proved against a specification.

`dafny verify dfyconfig.toml` checks the whole project.

## What the proofs found

Some properties hold only under a condition. Each is proved with the exact condition, or with a
concrete run that breaks it.

- Guard: the reaper reads an owner record, probes its process and renames the directory away in three
  operations, and the guard can change hands in between. Then the claim of a live launcher is taken, with
  another token than the one read (`Guard.Robbery`), and maintenance and launcher both hold the guard
  (`Guard.TwoHolders`). The guard is in order exactly in the runs in which no rename meets a live process
  inside (`Guard.OrderlyIffNeverRobbed`), and exclusive exactly in those that make no claim beside a process
  robbed of its own (`Guard.MutualExclusion`). Either of two conditions rules this out: the owner was already
  dead when its record was read (`Guard.DeadReadsNeverRob`), or the directory renamed away is found to carry
  the token that was read (`Guard.CarriedReadsNeverRob`). A record at the path decides whether a rename robs
  (`Guard.RecordDecides`); without one nothing visible does (`Guard.MissingRecordDecidesNothing`).
- Launches: a running session keeps its release and lease in every run, whatever happens to the guard
  (`ChannelSessions.UsedReleaseIsPresent`). What the race costs is launchers: one whose claim was taken can lose
  the release it resolved (`ChannelLoss.LauncherLosesRelease`). Only such launchers can, and they never come to run
  a session, because their release of the guard is refused (`ChannelSessions.LoserNeverRuns`). None is lost if the
  reaper never finds another token than the one it read (`ChannelSessions.LaunchersKeepReleases`). The collector's
  accounting of leases is right exactly in the runs in which no scan overlaps a launch
  (`ChannelLaunch.ShelteredIffNeverOverlaps`); an overlap alone loses nothing (`ChannelLoss.OverlapWithoutLoss`).
- Guard: a process that dies between making the guard directory and completing its owner record leaves a
  claim that stays for ever, unless a reaper is on its way that read an earlier claim
  (`Guard.OrphanIsForever`); an interrupted promotion or rollback can be completed if and only if there is
  no such claim (`ChannelRuns.CompletableIffNotOrphaned`).
- Guard: a launcher robbed between its mkdir and its owner record finds another process's record in the way; it then
  deletes that process's claim with the whole directory and claims the guard beside it (`Guard.CollisionDeletesClaim`).
- Installer lock: a second reclaimer fits between probing a stale lock and renaming it away; then two live
  installers hold the lock (`InstallerLock.ReclaimRace`). Live holders own what lies at the lock's path
  exactly in the runs in which no reclaiming rename hits a live holder's lock
  (`InstallerLock.OwnedIffNeverStale`), and there is at most one of them exactly in those that publish no lock
  while a holder lives whose own lock was renamed away (`InstallerLock.ExclusiveIffNeverIntruded`).
- Rollback: a rollback that crashed after its record was written and is requested again undoes itself,
  because the retry first replays the record and then commits a second swap (`ChannelRuns.LinksFollowCommits`, `ChannelWork.LeftoverThenTask`).
- Link replacement: an existing link is missing at some moment exactly on Windows and when the new link, the
  lstat and the first rename work (`ReplaceLink.LinkDirectory.AtomicReplaceLink`, `ReplaceLink.WindowsGap`).
- Archive: a directory named `package//` is accepted, and two limits can never decide
  (`ArchiveWriter.OctalFieldIsBounded`, `ArchiveWriter.PathLimitNeverDecides`).
- `truncateVisual` exceeds a width below 2 (`Ansi.VisualWidth`).
- Prompt protocol: a prompt sent after the answer to the previous one can still be refused, because the
  worker answers before it clears the prompt (`Prompt.RefusedAfterAnswer`); a prompt whose runner cannot
  be made, or whose thread cannot be started, is never answered (`Prompt.ExactlyOneAnswer`), and in the
  second case no later prompt is accepted (`Prompt.StrandedForever`); a cancel whose cancel function raises has
  cancelled its prompt but is not answered (`Prompt.RaisingCancel`).
- Terminus run loop: a cancel that arrives while the loop waits for the queue, and terminates the
  worker, is reported as a failure, and one that arrives after the flag was checked for the last time is not
  seen (`Terminus.CancelHonouredIff`); if stopping the worker raises, as it does where tmux is missing, the
  tool call gets no final status (`Terminus.Run.RunPrompt`).

## Model

| member | source | states |
|---|---|---|
| Guard.ValidStep | scripts/install-channel.mjs:1097-1132 | Every single access of a launcher, of maintenance or of a reaper, and every death, keeps: a condemned process has ended, a reaper is not inside, the robbed are, tokens belong to the processes that made them. |
| Guard.OrderlyStep | scripts/install-channel.mjs:1414-1455 | From a state in which at most one live process is inside and finds its claim as it left it, a step leads to such a state if and only if it is not a rename that meets a live process inside. |
| Guard.OrderlyIffNeverRobbed | scripts/install-channel.mjs:1414-1455 | Over a whole run: that state of order lasts if and only if no reaper ever renames the directory while a live process is inside. |
| Guard.MutualExclusion | scripts/install-channel.mjs:1097-1132 | Over a whole run there is at most one live process between mkdir and removal, if and only if no claim is made beside a process that is still inside after the directory was renamed away under it. |
| Guard.ReleaseNeverRefused | scripts/install-channel.mjs:1097-1101 | In runs without such a rename a live holder finds its own token when it releases, so the "ownership changed" branch is not taken. |
| Guard.RecordDecides | scripts/install-channel.mjs:1424-1443 | While the guard is in order, renaming a directory with an owner record, complete or not, robs somebody if and only if that owner is a live process inside; never when it has ended. |
| Guard.MissingRecordDecidesNothing | scripts/install-channel.mjs:1424-1443 | Without a record, two reachable states that look the same to the reaper differ: one rename robs a launcher that has just made the directory, the other takes an orphan. |
| Guard.CarriedReadsNeverRob | scripts/install-channel.mjs:1441-1450 | If every directory renamed away is found to carry the token that was read, no live process is ever robbed. |
| Guard.DeadReadsNeverRob | scripts/install-channel.mjs:1424-1450 | If the owner was already dead whenever its record was read, no live process is ever robbed and every claim renamed away is the one that was read. |
| Guard.ReaperTakesWhatItExamined | scripts/install-channel.mjs:1414-1455 | From the start, in runs that read only records of ended processes, the claim examined stays at its path with nobody inside, and is what the rename takes; the token-mismatch branch is not taken. |
| Guard.Robbery | scripts/install-channel.mjs:1424-1450 | A concrete run that reaches the token-mismatch branch: the claim renamed away is that of a live launcher. |
| Guard.TwoHolders | scripts/install-channel.mjs:1443-1466 | It goes on to two live holders, one of which is refused its release. |
| Guard.OrphanIsForever | scripts/install-channel.mjs:1120-1130 | A claim without a complete owner record whose creator is gone stays for ever and nobody enters again, if and only if no reaper is on its way that read an earlier claim. |
| Guard.OrphanReachable | scripts/install-channel.mjs:1104-1113 | Such a claim can come about: a launcher dies right after mkdir. |
| Guard.AbandonedClaimIsUndone | scripts/install-channel.mjs:1104-1119 | A claim whose record cannot be published, begun or not, is removed again and leaves the guard as it was. |
| Guard.SparedClaimIsUntouched | scripts/install-channel.mjs:1414-1440 | Reading the record of an owner that seems alive and sparing it changes nothing. |
| Guard.DeadClaimIsReaped | scripts/install-channel.mjs:1414-1455 | The claim of an ended owner can be read, probed, renamed away and removed; then the guard is free, and whoever was inside counts as robbed. |
| Guard.GivingUpLeavesClaim | scripts/install-channel.mjs:1097-1101 | A release that is refused or fails part-way leaves whatever is at the path where it is. |
| Guard.ReaperFinishes | scripts/install-channel.mjs:1441-1455 | A reaper that has begun can finish whatever became of the claim: it spares it, takes what is at the path, or goes on if nothing is there. |
| Guard.CollisionDeletesClaim | scripts/install-channel.mjs:1104-1119 | A concrete run in which a launcher robbed before its record collides with the claim of another live launcher, deletes it and holds the guard beside it. |
| ChannelSafety.ValidStep | scripts/install-channel.mjs:1732-1853 | Every step of every process, and every crash, keeps the invariant of all runs: linked and recorded releases are present and complete, the pair is distinct, installer phases agree with record, links and guard stage, and a runner between resolving and leasing believes to hold the guard. |
| ChannelLaunch.ShelterStep | scripts/install-channel.mjs:1137-1151 | From a state in which every live user has its release and lease and is accounted for by the scan under way, a step leads to such a state if and only if it is not a scan that lists or judges leases beside a launcher of that release. |
| ChannelLaunch.ShelteredIffNeverOverlaps | scripts/install-channel.mjs:1508-1686 | Over a whole run the accounting of leases is right (every live user has its release and lease, and the scan under way has it still to scan or found it active) if and only if no scan overlaps a launch. This is about the accounting; an overlap need not lose a release. |
| ChannelSessions.KeptStep | scripts/install-channel.mjs:1137-1163 | Every step keeps: a launcher whose own token lies at the guard has its release, linked as long as the installer prunes inside the guard, and its lease; one that passed the check of its release of the guard has its release and complete lease, and any scan of that release counts it. |
| ChannelSessions.UsedReleaseIsPresent | scripts/install-channel.mjs:1134-1185 | Over every run, with crashes and disturbed guards: a running session, and a launcher past the check that ends its guarded section, has its release in place and fully built and its lease complete; any other live user has its release or its claim of the guard is gone; without an overlapping scan all of them have it. |
| ChannelSessions.RemovalIsJustified | scripts/install-channel.mjs:1566-1686 | Over every run a release leaves the channel only by being retired, and then no link or record names it, it is not marked for migration, and any live user of it is a launcher whose claim of the guard is gone, not a running session; without an overlapping scan there is none. |
| ChannelSessions.DoomedNeverRuns | scripts/install-channel.mjs:1152-1164 | A launcher whose claim of the guard is gone never runs a session in whatever follows: its release of the guard is refused before the entry point is imported. |
| ChannelSessions.LoserNeverRuns | scripts/install-channel.mjs:1152-1164 | From any reachable state, a live user whose release is missing never runs a session. |
| ChannelSessions.LaunchersKeepReleases | scripts/install-channel.mjs:1443-1450 | If the reaper never finds another token than the one it read, every live user, launchers included, has its release in every state of the run. |
| ChannelSessions.DoomedExactlyByRename | scripts/install-channel.mjs:1441-1443 | While the guard is in order, a launcher holding it loses its claim in exactly the steps in which the reaper renames the directory, whose record then names that live launcher. |
| ChannelLaunch.GuardSeparatesScanAndLaunch | scripts/install-channel.mjs:1508-1559 | Resolve-and-lease and scan-and-retire both happen under the guard; in every run that makes no claim beside a robbed process, no scan overlaps a launch. |
| ChannelLoss.LauncherLosesRelease | scripts/install-channel.mjs:1414-1455 | A concrete run from the empty channel in which a launcher robbed of its claim has resolved a release and the release is retired; the launcher is doomed and never runs a session, whatever follows. |
| ChannelLoss.OverlapWithoutLoss | scripts/install-channel.mjs:1508-1559 | A concrete run in which a scan has overlapped a launch and every live user still has its release. |
| ChannelRuns.LinksNeverDangle | scripts/install-channel.mjs:889-943 | Over every run, crashes included, both links name existing releases. Only completely built trees are ever published; that is how publication is modelled. |
| ChannelRuns.CurrentStaysSet | scripts/install-channel.mjs:1138-1140 | Once set, `current` stays set, and a launcher in the guard can resolve it. |
| ChannelRuns.LinksDiffer | scripts/install-channel.mjs:1739-1797 | Without a pending record, `current` and `previous` name different releases. |
| ChannelRuns.NothingLostWhilePending | scripts/install-channel.mjs:1816-1838 | While a record is pending, the releases it names and those linked now are all in place, and nothing can be pruned. |
| ChannelRuns.ReplayConverges | scripts/install-channel.mjs:1816-1838 | Whatever crashes, failures and retries follow, each link is old or desired, the record outlives both swaps, and it disappears only when both links are as desired. |
| ChannelRuns.StepRefinesRegister | scripts/install-channel.mjs:1784-1797 | Each step changes the pair the channel stands for exactly as the commit it makes: writing a promotion or rollback record, and nothing else. |
| ChannelRuns.RunRefinesRegister | scripts/install-channel.mjs:1981-2037 | Over every run the pair is the fold of the committed promotions and rollbacks. |
| ChannelRuns.LinksFollowCommits | scripts/install-channel.mjs:1840-1853 | Between two states without a record: no commit keeps the links, a promotion of r turns (c, p) into (r, c), one rollback swaps them and two are the identity, whatever crashed in between. |
| ChannelRuns.CompletableIffNotOrphaned | scripts/install-channel.mjs:1816-1838 | With all processes gone, a pending record can be replayed to its end if and only if the guard is no orphaned claim. |
| ChannelRuns.OrphanBlocksReplay | scripts/install-channel.mjs:1826-1837 | Behind an orphaned claim the record stays, in every run. |
| ChannelWork.RollbackWorks | scripts/install-channel.mjs:1840-1853 | From every state at rest with both links and no record a rollback can run to its end, and then `current` is the old `previous`, `previous` the old `current`, there is no record, and nothing else has changed: releases, leases, sessions, guard. |
| ChannelWork.InstallWorks | scripts/install-channel.mjs:1981-2037 | From every state at rest without a record: a release that is present is promoted as it is, one that is not is built and published first; then it is `current`, the old `current` is `previous` and nothing else has changed. Installing the current release changes nothing. |
| ChannelWork.LeftoverThenTask | scripts/install-channel.mjs:1816-1838 | A record left behind is completed before the requested operation, which then builds on the pair of the record: a rollback swaps it, an installation promotes over it. |
| ChannelWork.LaunchWorks | scripts/install-channel.mjs:1134-1185 | While the guard is free, and whatever the installer is doing, a new session can start: it runs the release `current` names, its own complete lease lies there, the guard is free again and nothing else has changed. |
| ChannelWork.QuitRemovesOwnLease | scripts/install-channel.mjs:1167-1176 | A session that ends removes its own lease and no other. |
| ChannelWork.ThrowReleases | scripts/install-channel.mjs:1827-1836 | Whatever operation of the installer throws, the installer comes to its end without doing anything else; a guard it held is free then, and links, record, releases and leases are as the failure left them. |
| ChannelWork.RefusedRelease | scripts/install-channel.mjs:1587-1596 | A release of the guard that finds another claim leaves that claim alone; after a replay the installer stops short of its goal, after pruning it goes on to delete what it has retired. |
| ChannelWork.AbandonedClaimFails | scripts/install-channel.mjs:1463-1476 | A claim of the guard whose record cannot be published is removed and the error thrown: the installer comes to its end, a launcher has failed, and nothing else changes. |
| ChannelWork.MarkIsForever | scripts/install-channel.mjs:1286-1311 | Over every run, a release marked for sessions without a lease is there and marked ever after. |
| ChannelWork.MarkLasts | scripts/install-channel.mjs:1762-1767 | A promotion can mark its release until it writes the record, and the mark lasts over every run. |
| ChannelCollect.PruneCollects | scripts/install-channel.mjs:1566-1686 | A whole undisturbed collection leaves exactly the releases that are linked, marked, or have a complete lease of a living process; of the leases looked at exactly those of living processes; of the tombstones, old and new, exactly those that cannot be deleted; and everything else as it was. |
| ChannelCollect.RemovedLeaseStaysRemoved | scripts/install-channel.mjs:1145-1151 | Over every run, a lease that was removed never comes back, not even if its process is still writing it. |
| ChannelCollect.FailedRemovalKeepsRelease | scripts/install-channel.mjs:1526-1534 | A lease file judged inactive that cannot be removed keeps its release: the installer cannot retire it in that scan, whatever else it finds. |
| InstallerLock.LockIsAlwaysReclaimable | scripts/install-channel.mjs:1884-1952 | In every reachable state, after a crash at any point too, a present lock carries a complete owner record, and an installer that finds the lock of a dead owner can go on to hold it. |
| InstallerLock.OwnedStep | scripts/install-channel.mjs:1919-1979 | A step keeps "every live holder owns the lock" if and only if it is not a reclaiming rename that hits a live holder's lock. |
| InstallerLock.OwnedIffNeverStale | scripts/install-channel.mjs:1919-1979 | Over a whole run, live holders own what lies at the lock path at all times exactly when no reclaiming rename hits a live holder's lock. |
| InstallerLock.ExclusiveIffNeverIntruded | scripts/install-channel.mjs:1919-1979 | Over a whole run there is at most one live holder, if and only if no lock is published while a holder lives whose own lock was renamed away. |
| InstallerLock.AtomicReclaimExcludes | scripts/install-channel.mjs:1925-1952 | If nothing happens to the lock between probe and rename, at most one live installer holds it in every state, and what lies at its path is its own. |
| InstallerLock.ReclaimRace | scripts/install-channel.mjs:1930-1952 | A concrete run with two live holders after two reclaimers condemned the same dead owner. |
| InstallerLock.ReleaseFreesLock | scripts/install-channel.mjs:1959-1972 | A holder that finds its own lock can release it; then the path is free, and the next installer to start can go on to hold the lock with its own record there. |
| InstallerLock.FailedReclaimRestores | scripts/install-channel.mjs:1945-1952 | A reclaim that cannot publish its own lock can put the displaced one back; then everything but the reclaimer is as before. |
| InstallerLock.BeatenReclaimRestores | scripts/install-channel.mjs:1945-1952 | A reclaimer that finds another lock when it publishes its own leaves that one alone; if it is released before the reclaimer is done, the lock of the dead owner is put back. |
| InstallerLock.OthersLeaveLock | scripts/install-channel.mjs:1919-1979 | Nothing but a publication into a free path, a restoration into a free path, a reclaim and a release changes what lies at the lock's path, and no step moves another process. |
| Archive.HeaderChecksum | scripts/install-channel.mjs:366-369 | The byte loop sums the header with its checksum field read as spaces. |
| Archive.AssertSafeCandidateArchive | scripts/install-channel.mjs:349-422 | The loop over offset, counters and the deferred flag computes the recursive walk; it terminates because every entry moves the offset forward inside the archive. |
| ArchiveFields.CleanTextIff | scripts/install-channel.mjs:333-338 | Bytes pass as text if and only if they are the UTF-8 encoding of characters other than U+FFFD. |
| ArchiveFields.TarStringIff | scripts/install-channel.mjs:333-338 | A text field is read as `s` if and only if it is `s`, free of NUL and clean text, and then its end or a NUL. |
| ArchiveFields.TarOctalIff | scripts/install-channel.mjs:340-347 | An octal field is read as n if and only if it is white space of ECMAScript, one or more octal digits of that value, white space, and then its end or a NUL, does not begin with a byte of the upper half, and n is a safe integer. |
| ArchiveFields.TarOctalFaults | scripts/install-channel.mjs:340-347 | A base-256 field and a field that is no clean text are told apart from other faults, exactly. |
| ArchiveFields.ValueFromTheLeft | scripts/install-channel.mjs:344-344 | The first digit of a field counts most. |
| ArchiveFields.SparseRecordIff | scripts/install-channel.mjs:384-384 | A sparse-size record with size n begins a text if and only if it begins with digits, ` GNU.sparse.`, `size=` or `realsize=`, digits of value n and a line break. |
| ArchiveFields.SparseSizeIsFirst | scripts/install-channel.mjs:384-384 | The size probed is that of the first record that begins a line, or none. |
| ArchiveFields.Spelling | scripts/install-channel.mjs:379-409 | The bytes the walk looks for spell the names and letters of the source, and its limits are those of the source. |
| ArchiveGrammar.LegalIsSafe | scripts/install-channel.mjs:401-415 | A path of the grammar passes the path checks for its kind. |
| ArchiveGrammar.SafeIsLegal | scripts/install-channel.mjs:401-415 | A path that passes the checks, without `._` components, is one of the grammar. |
| ArchiveGrammar.EntryAcceptedIff | scripts/install-channel.mjs:366-416 | The checks on one entry accept it, with given path, kind and size, if and only if its header and padded body form a legal member of the grammar and it fits the total and the archive. |
| ArchiveGrammar.LegalStaysInPackage | scripts/install-channel.mjs:401-415 | Such a path resolves to `package` or below it, through ordinary names only. |
| ArchiveGrammar.DeferredNeverAccepts | scripts/install-channel.mjs:380-421 | After one PAX or `._` entry the archive cannot be accepted. |
| ArchiveGrammar.AcceptedIffConforms | scripts/install-channel.mjs:349-422 | The walk succeeds with given visits if and only if the bytes are 1 to 4096 checksummed headers with padded bodies, legal plain files and directories within all limits, followed only by zeros, at least one block. |
| ArchiveGrammar.EntryFault | scripts/install-channel.mjs:374-415 | Which error a readable entry ends with: entry limit, total limit and missing bytes in this order, then its kind, then its path, then a directory with a body; extended headers and AppleDouble files are deferred. |
| ArchiveGrammar.FirstFaultIsReported | scripts/install-channel.mjs:356-421 | Behind legal members the first fault is the one reported: bytes that end early, zeros that are not only zeros, an archive without members, one entry too many, or the fault of the next entry. |
| ArchiveGrammar.DeferredIsReported | scripts/install-channel.mjs:380-421 | A deferred entry among legal members, in an archive that ends well, is reported at the end, as a special entry. |
| ArchiveWriter.TarOctalOfNumeral | scripts/install-channel.mjs:340-347 | An octal field reads back as the number it was written for, with any blanks before its digits and any blanks and NULs behind them. |
| ArchiveWriter.OctalFieldIsBounded | scripts/install-channel.mjs:340-347 | No octal field of a header can hold a number beyond the safe integers. |
| ArchiveWriter.PathLimitNeverDecides | scripts/install-channel.mjs:371-408 | Name and prefix fields never form a path longer than 256 bytes, so the limit of 512 rejects nothing. |
| ArchiveWriter.WrittenIsLegal | scripts/install-channel.mjs:366-415 | A header written for a legal entry, checksum included, is a legal member. |
| ArchiveWriter.RoundTrip | scripts/install-channel.mjs:349-422 | Every list of legal entries within the limits, written in ustar format with size and checksum fields framed by blanks and NULs in any way, is accepted, and the walk visits exactly its headers with their offsets, paths, kinds and sizes. |
| Text.FieldPrefixFree | scripts/install-channel.mjs:815-840 | NUL-terminated UTF-8 fields without NUL determine their text and where they end. |
| Text.DecimalInjective | scripts/install-channel.mjs:827-830 | Decimal numerals of modes and sizes determine the number. |
| Text.LessIff | scripts/install-channel.mjs:820-820 | One name sorts before another if and only if, after a common beginning in UTF-16 code units, it ends first or goes on with the smaller unit. |
| Text.UnitsDecode | scripts/install-channel.mjs:820-820 | The code units compared: a character is one unit that is no surrogate, or a high and a low surrogate of its value. |
| Text.FieldEnds | scripts/install-channel.mjs:817-831 | A field is the encoded text and one NUL, the only one exactly when the text has none. |
| Text.DecimalShape | scripts/install-channel.mjs:826-830 | Modes and sizes are written in decimal digits without a leading zero. |
| Text.DecimalFromTheLeft | scripts/install-channel.mjs:826-830 | The first digit of such a numeral counts most. |
| TreeForms.MaskedBits | scripts/install-channel.mjs:816-830 | A masked mode has exactly the counted bits of the mode: bits 0 to 8, or 6 to 8 for the owner alone, or none. |
| TreeForms.MaskedAlikeIff | scripts/install-channel.mjs:816-830 | Two modes are hashed alike if and only if they agree in every counted bit; a mode of nine bits is hashed as it is. |
| TreeForms.RecordLayout | scripts/install-channel.mjs:825-834 | Each record is its letter, path, mode, and size or target, each ended by NUL, and then the content. |
| TreeForms.StreamIsRecords | scripts/install-channel.mjs:815-840 | A stream is its records one after another. |
| TreeForms.ReleaseStreamInOrder | scripts/install-channel.mjs:817-838 | On a tree with every kind of entry: the root first, entries in name order whatever the listing, a directory before its contents, paths below the root, no marker at the top. |
| TreeForms.NpmStreamInOrder | scripts/release-toolchain.mjs:51-72 | The same for an npm installation: no root, no modes, nothing left out. |
| TreeDigest.RecordPrefixFree | scripts/install-channel.mjs:825-836 | No record of the stream is the beginning of a different one, whatever follows. |
| TreeDigest.StreamDecodable | scripts/install-channel.mjs:815-840 | The stream determines the sequence of records. |
| TreeAgreement.ForestInjective | scripts/install-channel.mjs:815-840 | The records determine the sorted tree they were made from. |
| TreeAgreement.ReleaseStreamIffAgree | scripts/install-channel.mjs:813-840 | Two release trees feed the same bytes to the hash if and only if they agree on the root mode and, outside the two top-level markers, on kind, masked mode, content and link target at every path; listing order does not matter. |
| TreeAgreement.NpmStreamIffAgree | scripts/release-toolchain.mjs:46-75 | The same for npm installations, without modes and without exceptions. |
| DigestWalk.VisitRelease | scripts/install-channel.mjs:819-838 | The recursive visit succeeds exactly on supported trees and then has fed exactly the stream of the sorted tree. |
| DigestWalk.ReleaseContentDigest | scripts/install-channel.mjs:815-840 | The manifest is the hash of exactly the release stream, or an error for an unsupported entry. |
| DigestWalk.VisitNpm | scripts/release-toolchain.mjs:51-72 | The bounded visit ends well if and only if every entry is supported and the tree keeps within the entry, path and content limits; then it has fed exactly the stream and counted every entry and byte. |
| DigestWalk.ContentIsSum | scripts/release-toolchain.mjs:63-65 | The content counted against the limit is the sum of the sizes of the files. |
| DigestWalk.NpmInstallationDigest | scripts/release-toolchain.mjs:46-75 | The npm digest is the hash of exactly the npm stream if every entry is supported, there are at most 10,000 of them, with at most 64 MiB of content and paths of at most 1024 bytes; otherwise an error. |
| ReplaceLink.LinkDirectory.AtomicReplaceLink | scripts/install-channel.mjs:1688-1726 | For every pattern of failing calls and a kill anywhere: the old target is at the link or displaced until the new one is published; on POSIX the link is old or new at every moment; an existing link is missing at some moment exactly on Windows and when the first three calls work; success leaves only the new link; it succeeds if and only if no call fails, and on POSIX the new link is durable then. |
| ReplaceLink.LinkDirectory.Exchange | scripts/install-channel.mjs:1695-1711 | The same for the protected block, with what it leaves for the error handler. |
| ReplaceLink.LinkDirectory.Restore | scripts/install-channel.mjs:1713-1721 | The error handler puts the old link back, or leaves it displaced. |
| ReplaceLink.WindowsGap | scripts/install-channel.mjs:1688-1726 | A whole replacement on Windows that meets no failure succeeds and still passes through a moment without any link. |
| Snapshot.DrainIffDelivers | scripts/install-channel.mjs:308-316 | The copy loop obtains given bytes exactly when the reads deliver them, in pieces of any size, within the limit. |
| Snapshot.ChunkIs | scripts/install-channel.mjs:308-310 | A read delivers what the file holds there, up to the room for it, or fails with it. |
| Snapshot.Pin.WriteChunk | scripts/install-channel.mjs:314-315 | Short writes add up to the whole chunk unless a write fails; while writes accept nothing the loop goes on. |
| Snapshot.Pin.SnapshotCandidateTarball | scripts/install-channel.mjs:293-331 | A returned snapshot holds exactly the hashed bytes, their digest is the recorded one, and device, inode and size did not change, within the limit; unless a write fails or writes keep accepting nothing, it is returned exactly when that held and the reads delivered such content; nothing is left when it throws. |
| Snapshot.FillIffBegins | scripts/release-toolchain.mjs:23-28 | The buffer is filled with given bytes exactly when the file begins with them, read in pieces of any size. |
| Snapshot.BoundedFileBytes | scripts/release-toolchain.mjs:13-36 | Bytes are returned if and only if lstat, fstat at opening and fstat at the end agree on device, inode and size of a regular file within the limit and the reads filled that size; they are what the file began with. |
| ShellQuote.QuoteReadsBack | scripts/install-channel.mjs:945-947 | Wherever the shell is unquoted, a quoted string adds exactly its own characters to the word, nothing in it acts, and reading goes on behind it; it fails exactly for strings with NUL. |
| ShellQuote.LineReadsBack | scripts/install-channel.mjs:1226-1263 | A line of words, each of plain text, quoted values and double-quoted expansions, is read as exactly one command with exactly those words, if and only if every quoted value is free of NUL; the text after the line is untouched. |
| ShellQuote.AssignmentReadsBack | scripts/install-channel.mjs:1256-1262 | An assignment of the launcher sets exactly the given value. |
| ShellQuote.ExportReadsBack | scripts/install-channel.mjs:1226-1262 | An export of the launcher sets exactly the given variable to the given value. |
| ShellQuote.ExecReadsBack | scripts/install-channel.mjs:1262-1262 | The last line runs the node executable with exactly the runner, the current link, the lease directory and the launcher's own arguments, if and only if both embedded paths are free of NUL. |
| ShellQuote.LinesAreWritten | scripts/install-channel.mjs:1226-1263 | The assignment, export and exec lines, written out. |
| Ansi.TruncateAnsi | src/cc.mjs:415-437 | A text that fits is returned as it is; one that does not is cut right behind the last visible unit that leaves room for the ellipsis, with its escape sequences, and followed by a reset, the ellipsis and a reset; an ellipsis that does not fit is itself cut between two resets; without width nothing is left. |
| Ansi.MatchIff | src/cc.mjs:425-425 | The expression matches n units at the start of a text if and only if they are ESC, `[`, digits or `;` or `?`, units from space to `/`, and one unit from `@` to `~`. |
| Ansi.StripIs | src/cc.mjs:439-441 | Stripping removes the escape sequence a text begins with, or keeps its first unit when there is none. |
| Ansi.CutStrips | src/cc.mjs:423-435 | Cutting after n visible units leaves exactly the first n visible units, with no escape sequence split or formed at the cut. |
| Ansi.TruncationIsExact | src/cc.mjs:406-437 | If the ellipsis fits and the text does not, the visible result is the first width minus ellipsis visible units and the ellipsis; in every case the visible length stays within the width. |
| Ansi.VisualShows | src/cc.mjs:410-413 | What is shown of a text that is too long: from width 5 on the text up to the last four units, three dots and `~`; below that as many dots as there is room for, at least one, and `~`. |
| Ansi.VisualWidth | src/cc.mjs:410-413 | A text that fits is returned as it is; a cut text shows exactly the width, but never fewer than 2 units, so the result fits if and only if the text did or the width is at least 2. |
| Save.Folder.WriteAll | src/workflows/project-save-helper.py:82-88 | Through any pattern of short writes: on success exactly the data was appended to this file, on failure a prefix of it; it fails only if a call fails or a write makes no progress. |
| Save.Folder.SaveSource | src/workflows/project-save-helper.py:179-202 | At every moment, after a kill or a power loss, the destination reads as before the save (absent included) or as the complete new source; without overwrite an existing destination stays; success means the new source, on the disk, with no temporary name; if every call works, it succeeds exactly when the source is within the bound and it may write; whatever failed before, the temporary name goes if the closing and unlinking calls work. |
| Save.Folder.Prepare | src/workflows/project-save-helper.py:179-184 | Writing, syncing and closing the temporary file publishes nothing, and ends with the complete source on the disk. |
| Save.Folder.Publish | src/workflows/project-save-helper.py:185-189 | Publishing succeeds, when calls work, exactly if overwrite is set or the destination is absent. |
| Save.ReadSource | src/workflows/project-save-helper.py:155-170 | A workflow is returned if and only if it is a regular file within the bound and the reads deliver that content, in pieces of any size, within the bound. |
| Save.StagesAreSafe | src/workflows/project-save-helper.py:179-190 | Before and after publication, every outcome of a power loss is an old one or the complete source. |
| Save.UnsyncedIsUnsafe | src/workflows/project-save-helper.py:182-182 | Without the sync before publication the save would not be safe. |
| Prompt.ValidStep | src/harnesses/acp_bridge.py:109-141 | Every access of either thread keeps the protocol invariant: one worker, the current prompt is its own, one answer per settled message, cancels on the newest prompt. |
| Prompt.AtMostOneWorker | src/harnesses/acp_bridge.py:122-141 | Over all interleavings at most one worker exists, and a cancel would reach its prompt. |
| Prompt.ExactlyOneAnswer | src/harnesses/acp_bridge.py:122-141 | A message is answered exactly once if and only if it was read, is not being handled and its handling did not raise before a worker took over; otherwise not at all. |
| Prompt.CancelReachesNewest | src/harnesses/acp_bridge.py:113-118 | A cancel reaches only the newest prompt started before it was read, never a later one. |
| Prompt.CancelReachesWorker | src/harnesses/acp_bridge.py:113-118 | While a worker exists, a cancel reaches exactly its prompt and is answered. |
| Prompt.RefusedIff | src/harnesses/acp_bridge.py:122-125 | A prompt is refused exactly while a worker exists, answered or not, or after a worker could not be started. |
| Prompt.RefusedAfterAnswer | src/harnesses/acp_bridge.py:130-138 | From every state in which a worker has answered but not finished, the next prompt can be refused. |
| Prompt.StrandedForever | src/harnesses/acp_bridge.py:127-141 | After a thread could not be started no prompt is ever accepted again. |
| Prompt.PromptServed | src/harnesses/acp_bridge.py:122-141 | With no worker left and none stranded, the next prompt can run to any outcome, is answered with it, and leaves the bridge ready. |
| Prompt.IdleCancel | src/harnesses/acp_bridge.py:113-118 | A cancel that finds no prompt is answered and does nothing else. |
| Prompt.RaisingCancel | src/harnesses/acp_bridge.py:113-118 | A cancel whose cancel function raises has cancelled the current prompt, but is not answered. |
| Prompt.DroppedPrompts | src/harnesses/acp_bridge.py:127-141 | A prompt whose runner cannot be made is dropped without any other trace; one whose thread cannot be started is dropped but stays current. |
| Prompt.EveryMessageSettles | src/harnesses/acp_bridge.py:109-141 | Without new messages only a bounded number of steps follows, some step is possible until then, and at the end every message has its one answer or raised. |
| Terminus.Run.RunPrompt | src/harnesses/terminus_2/bridge.py:187-253 | Every way to end is told apart by what the last turn found: completed, cancelled, timed out, worker gone, worker error, stop raised, each if and only if. The events are exactly the tool call, a stop of the session named last where one is needed, and the one status that agrees with the ending, or none if stopping raised; with a result, usage and texts follow. Blank instructions, an old Python and a worker that cannot start end before that. |
| Terminus.Run.Finish | src/harnesses/terminus_2/bridge.py:232-248 | A result ends the run as completed, or as cancelled if the flag is set by then, after stopping a worker that lingers, with exactly the events of that. |
| Terminus.CancelHonouredIff | src/harnesses/terminus_2/bridge.py:180-253 | A cancel during a turn that goes on ends the run as cancelled in the next turn; during the last turn it counts if and only if that turn was not late, brought the result, and the flag was set before its last check (a cancel between that check and the return is not seen). |
| Tmux.Terminal.SendLiteralKeystrokes | src/harnesses/terminus_2/bridge.py:87-93 | The keys sent type exactly the given text, as non-empty literals without line breaks and Enter keys; a failure leaves a beginning of it. |
| Tmux.Terminal.SendKeys | src/harnesses/terminus_2/bridge.py:80-85 | Every text but the two control names is typed as it is. |
| Tmux.Terminal.GetIncrementalOutput | src/harnesses/terminus_2/bridge.py:71-78 | The output continues the last screen to the current one if it grew, and is the whole current screen otherwise. |
| Tmux.IncrementsContinueIff | src/harnesses/terminus_2/bridge.py:71-78 | Over any sequence of captures the outputs continue the first screen to the last one, nothing missing or repeated, if and only if the screen only ever grew. |

## Left out

- Foreign programs: npm, git, tar, python3, tmux and `ps`, gunzip, the trusted-executable lookup and native payload inspection; their results are inputs.
- SHA-256 is an uninterpreted function; the theorems are about what it is fed.
- Liveness probes: `processIsAlive` and process identities are sound oracles, and a process lifetime never comes back.
- ChannelSessions.UsedReleaseIsPresent: says nothing about processes outside the lease protocol, such as launchers older than the guard; releases marked for migration are only shown never to be collected.
- ChannelRuns.RunRefinesRegister: installers are serialized, as the installer lock intends; the race of InstallerLock.ReclaimRace is not carried over into the channel.
- ChannelRuns.LinksNeverDangle: covers process crashes, not power loss, and takes replacing a link as one step, which is what AtomicReplaceLink shows for POSIX; on Windows there is a moment without a link.
- Guard and channel, installer lock and prompt protocol are machines on values and not classes, because several processes or threads interleave at every step; the machine has no method bodies whose order of calls could be compared with the source line by line.
- Waiting: deadlines of the guard are a give-up that may happen at any time, and fairness is not modelled; the grace period of unreadable leases is dropped, they may be judged either way.
- ChannelWork.InstallWorks: building a release (materializeRelease) is a sequence of stages that may fail; contents, metadata and the upgrade of older manifests are not modelled.
- Invalid targets in the record, corrupt links and escaped links made by other programs; the launcher and runner texts and their restoration after a failed publication.
- DigestWalk.VisitRelease: a file's size and content are one value, so a file changing between the two calls is not modelled; names are Unicode text, so Node's lossy decoding of other names and link targets is not.
- Archive.AssertSafeCandidateArchive: starts from the expanded bytes; the gunzip limit is not modelled.
- ShellQuote.LineReadsBack: expansions inside double-quotes stay symbolic, and `"$@"` counts as one word; the launcher's conditionals and the Windows batch launcher are not modelled.
- Snapshot.Pin.WriteChunk: what the writes accept is a finite list; a loop still at work at its end stands for one that spins.
- Save.Folder.SaveSource: one save at a time, with the directories already open; name checks and opening the directories without following links are not modelled, and a rename or link reaches the disk as one step.
- Listing workflows and the identity operations of the save helper.
- Prompt.ExactlyOneAnswer: sends succeed and messages are told apart by their order, not by the identifier the client chose; the other methods of the bridge do not touch this state.
- Terminus.Run.RunPrompt: turns left over end the model, not the run; a run that polls for ever is a run without an ending turn. The texts and token counts sent with a result are not modelled.
- Tmux.Terminal.SendLiteralKeystrokes: how tmux itself reads its arguments is not modelled.
- The mini-swe-agent bridge, release verification scripts, postinstall and the user interface beyond truncation.
