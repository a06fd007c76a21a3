# Verified models of the server's hard core

This project models the parts of the server whose correctness is not visible in one function, and proves what
they promise. It is checked with Dafny 4.11: `dafny verify dfyconfig.toml`.

Code that changes state in place is a class or a method, proved against a function of its inputs or of the old
state; the theorems are about those functions. Goroutines are state machines: each critical section, channel
operation or atomic addition is one step, and theorems speak of every interleaving of steps. What the outside
world does (a link that fails, an object that vanishes, a process that does not start) is a parameter of the step.

| files | what they model |
|---|---|
| `CidrAddress`, `IpTrie`, `LongestMatch`, `AddressForms` | the CIDR trie of the geo engine against the longest-match rule of section 5.1 of RFC 4632, for addresses of four and of sixteen bytes |
| `TextSearch`, `Translate`, `ReplacementTable` | the rewriting of Chinese ISP names to English, and its table |
| `Failover`, `EhcoEngine`, `Supervision`, `FailoverRuns`, `ClientAddress` | the tunnel engine, its supervisors and failover monitors, stale ones included, and which process runs towards which address |
| `LexicalPath`, `CleanRules`, `SandboxPath`, `Containment` | `filepath.Clean` as a component stack and its documented rules, the sandbox mapping built on it, and where it keeps a path inside |
| `SqlLike`, `FileStore`, `Records`, `StoreSafety`, `Rehydrate`, `TierOrder` | the registry, the local disk and the object store: deduplicate, archive, what each record then says, and where a file is brought back from |
| `DnsSweep` | one DNS sweep: chunks, counters, the result channel, the batching saver |
| `GeoRace` | the first-success race between geolocation sources |
| `BulkImport` | the deduplicating, batching collector of the resolver import |
| `Relocation`, `Deletion`, `TorrentEntries`, `VirtualListing` | moving and deleting registry rows, and the merged directory listing |
| `RemoteSecrets` | masking credentials and putting them back |
| `CleverScore` | the ranking score of a resolver, over the reals |

## What the proofs found

Several promises hold only under a condition. Each is proved as an exact condition, or shown by a run or an input.

- Inserting an empty value deletes a block's entry, and `Insert` panics exactly when the prefix is longer than the
  address after its cut to four bytes (IPv4-mapped blocks written as IPv6).
- In the replacement table the general word for a company comes before three named companies, whose rules can
  therefore never fire (`CompanyRulesNeverFire`).
- A failover monitor re-checks only `expectedRun` after its probe: in server mode a monitor of an earlier client run
  can put a client in the engine's slot (`WrongKindIffStaleSwitch`), and a run from the start does so. In the same way
  a supervisor that slept through a restart kills the new, healthy child: `ChildKilledIff` says exactly which steps
  kill a live child, `RestartKillsOnlyNewer` that it can only be one started after the check, and a run from the start
  does so. In client mode, too, a monitor of an earlier run can switch a client that was started again before its own
  monitor has probed once. Still at most one child is ever live.
- Normalising a clean path twice is not always normalising it once: `data/manager../x` leaves the root. `Settles`
  says exactly for which clean paths it is. Not every result lies inside the root either: `Contained` says exactly
  for which texts it does, and `CleanContained` for clean ones.
- Registering the only copy of a content loses it exactly when the deduplicating branch is taken: the file of its
  record, which then holds other bytes, is linked over it. A run from the empty store gets there by rewriting the
  record's file (`RewrittenMasterLosesContent`); `DownloadIsSafeIff` says exactly which downloads do no harm.
  Two more runs lose a content: a queued upload that reads a file after it became a stub, and a stub whose object
  vanishes while a second copy is registered. Archiving loses an only copy exactly when it removes the file with the
  store disabled or a wrong object trusted. Linking a file onto itself deletes it.
- The error of the update that stores a key is not looked at. An archiving then reports success and removes the file,
  and materializing it then answers "upload pending"; `KeyStored` says exactly when not.
- In the tiered resolver the search by checksum reuses the variable of the search by key. That hides a row exactly
  when the file name is the key of one row and the checksum of another, which no sound store has.
- A panic inside a sweep's diagnostic leaves `InFlight` one too high until the next sweep resets it.
- SQL `LIKE` treats `_` and `%` as wildcards and ignores the case of ASCII letters, so moving `a_b` drags `aXb` along,
  and deleting `a_b` deletes the objects of `aXb`. `OutsideKeptIff` and `OutsideObjectLostIff` are the exact conditions.
- With the store disabled, deleting a path that ends with a separator misses every row directly below it.
- A move with a row at the source itself leaves everything else at and below it behind (`AllArriveIff`).
- A torrent file below a sibling whose name extends the listed directory's name shows up as an entry called `..`.
- An archived file hides the archived files below a folder of its name: the listing keeps the first entry
  (`LevelEntry`, `FileHidesFolder`).
- An import line whose protocol has a colon can hide a different resolver: `1::2` with `5:udp` and `1::2:5` with `udp`.
- A stored empty secret comes back from an unchanged form as the marker, and the marker is stored.

## Model

| member | source | states |
|---|---|---|
| CidrAddress.BitsDenoteAddress | internal/geo/engine.go:64-68 | the bits the trie reads off an address, most significant first, denote the address as a number |
| CidrAddress.ContainsIffPrefix | internal/geo/engine.go:48-70 | with host bits clear, sharing the block's leading bits is the same as lying in its numeric range of addresses |
| IpTrie.IPTrie.constructor | internal/geo/engine.go:40-45 | a new trie is well formed and its table is empty |
| IpTrie.IPTrie.Link | internal/geo/engine.go:70-72 | linking an allocated node keeps the trie well formed and its table unchanged |
| IpTrie.IPTrie.Descend | internal/geo/engine.go:64-73 | walking one bit down, allocating when needed, reaches the node of the longer path and leaves the table alone |
| IpTrie.IPTrie.SetValue | internal/geo/engine.go:75 | setting a node's value stores it under the node's path, or deletes the path's entry when the value is empty |
| IpTrie.IPTrie.Insert | internal/geo/engine.go:47-77 | the table gains exactly this block's entry; a parse error and a mask longer than the cut address change nothing, the latter by a panic |
| IpTrie.IPTrie.Lookup | internal/geo/engine.go:79-116 | the result is the value of the longest stored prefix, and not found when there is none |
| IpTrie.IPTrie.NothingBelow | internal/geo/engine.go:102-105 | below a missing child nothing is stored, so stopping the walk loses no match |
| LongestMatch.CoversIffPrefix | internal/geo/engine.go:53-76 | a block contains an address exactly when its path is a prefix of the address's path in the same family |
| LongestMatch.SameBlockIffSamePath | internal/geo/engine.go:64-75 | two inserts write the same node exactly when they are for the same block |
| LongestMatch.LiveIsStored | internal/geo/engine.go:47-77 | last write wins: a value no later insert for its block replaced is in the table |
| LongestMatch.StoredIsLive | internal/geo/engine.go:47-77 | every entry of the table comes from such a live insert |
| LongestMatch.RouteIsLongestMatch | internal/geo/engine.go:79-116 | after any inserts, the lookup gives a value exactly when it is that of the live containing block with the longest mask, and none exactly when no live block contains the address |
| LongestMatch.ScanWins | internal/geo/engine.go:79-116 | a plain scan over all inserts finds the live containing block with the longest mask |
| LongestMatch.RouteRefinesScan | internal/geo/engine.go:79-116 | the trie and the plain scan agree on every address |
| LongestMatch.OnlyCoveredAddressesChange | internal/geo/engine.go:47-77 | an insert changes no lookup outside its block; the IPv4 and IPv6 tries never interfere |
| LongestMatch.DistinctInsertsCommute | internal/geo/engine.go:47-77 | inserts for distinct blocks can be swapped anywhere in a sequence |
| LongestMatch.LoadProviders | internal/geo/engine.go:246-262 | loading the lists panics exactly when some block is out of range, and otherwise the table is that of all calls in order |
| AddressForms.IPv4Route | internal/geo/engine.go:79-116 | a four-byte address and its IPv4-mapped sixteen-byte form have the same route in every table: the longest stored prefix of its 32 bits from the IPv4 root |
| AddressForms.IPv6Route | internal/geo/engine.go:79-116 | a sixteen-byte address whose first twelve bytes are not the mapped ones is walked over all its 128 bits from the IPv6 root |
| AddressForms.IPv4BlockStored | internal/geo/engine.go:53-76 | an IPv4 block, in either form, is stored in the IPv4 trie along its leading bits when its mask has at most 32 ones |
| AddressForms.IPv6BlockStored | internal/geo/engine.go:53-76 | any other block is stored in the IPv6 trie when its mask has at most 128 ones |
| AddressForms.MappedBlockPanicsIff | internal/geo/engine.go:53-68 | inserting a block of mapped form panics exactly when its mask has more than 32 ones |
| AddressForms.IPv4Covers | internal/geo/engine.go:53-116 | an IPv4 block covers an address in either form exactly when the address lies in its numeric range |
| AddressForms.IPv6Covers | internal/geo/engine.go:53-116 | an IPv6 block covers the IPv6 addresses of its range and no IPv4 address in any form, and the other way round |
| AddressForms.MappedLookupExample | internal/geo/engine.go:494-500 | with 8.8.8.0/24 inserted, the sixteen bytes of 8.8.8.8 that parsing yields find its value |
| Translate.ContainsPairIff | internal/geo/engine.go:1068-1070 | the loop's test holds exactly when two spaces are adjacent |
| Translate.RoundKeepsSqueeze | internal/geo/engine.go:1068-1070 | a round of the collapse loop shortens the text and keeps its one-pass collapse |
| Translate.TranslatedIsNormal | internal/geo/engine.go:1045-1073 | the result has no CJK rune, no outer white space and no adjacent spaces |
| Translate.TranslatedFixesNormal | internal/geo/engine.go:1045-1073 | a text in that normal form is left alone |
| Translate.TranslatedIsIdempotent | internal/geo/engine.go:1045-1073 | translating twice is translating once |
| Translate.ShadowedRuleNeverFires | internal/geo/engine.go:1045-1056 | a rule whose name holds the name of an earlier rule never finds its name, in any text, when the rules between replace by English |
| ReplacementTable.CompanyRulesNeverFire | internal/geo/engine.go:838-1043 | in the table no rule after the general word for a company whose name holds that word ever fires |
| ReplacementTable.NamedCompanies | internal/geo/engine.go:1034-1038 | there are exactly three such rules: Google, Microsoft and Amazon as companies |
| ReplacementTable.TableTranslates | internal/geo/engine.go:838-1073 | with the table of the program the result is in normal form and a second translation changes nothing |
| Translate.TranslateToEnglish | internal/geo/engine.go:1045-1073 | the loops terminate and compute rewrite, filter, trim and one-pass collapse, in that order |
| Translate.ReplaceFirst | internal/geo/engine.go:1051-1055 | the first occurrence of a name is replaced by the whole English text, and replacing goes on behind it |
| Translate.RewrittenInOrder | internal/geo/engine.go:1051-1055 | each rule is applied to what the rules before it left |
| Translate.FilterMeaning | internal/geo/engine.go:1057-1064 | the runes of three Han blocks are dropped, all others kept in order |
| Translate.TrimMeaning | internal/geo/engine.go:1066 | only white space at the two ends is cut off |
| Translate.SpaceMeaning | internal/geo/engine.go:1066 | white space is the 25 characters of that Unicode property |
| Translate.SqueezeDropsOne | internal/geo/engine.go:1068-1070 | of two adjacent spaces one goes; where there is no pair nothing changes |
| Failover.StreakReaches | internal/ehcocore/engine.go:704-712 | a streak of at least k is k last probes against the active side, none before the last switch |
| Failover.MonitorFollowsReference | internal/ehcocore/engine.go:681-738 | the two counters are the streak read off the probe history, and the side is the reference's |
| Failover.SwitchIffThreeAgree | internal/ehcocore/engine.go:704-738 | a probe switches exactly when it and the two before it, all since the last switch, agree against the active side |
| Failover.SwitchesArePaid | internal/ehcocore/engine.go:681-738 | three times the switches plus both counters never exceeds the number of probes |
| EhcoEngine.Engine.StopEngineLockedOnly | internal/ehcocore/engine.go:478-490 | the child in the slot is killed and the slot emptied, nothing else changes |
| EhcoEngine.Engine.StopEngineLocked | internal/ehcocore/engine.go:469-476 | the engine is no longer expected to run, its open stop channel is closed once and forgotten, the child is killed |
| EhcoEngine.Engine.StartClientEngineLocked | internal/ehcocore/engine.go:281-460 | the active address is kept, or the bridge or primary chosen when there is none; the child replaces the slot as far as launching gets |
| EhcoEngine.Engine.StartServerEngine | internal/ehcocore/engine.go:106-125 | stop, launch, and only on success expect a run with a new stop channel |
| EhcoEngine.Engine.StartClientEngine | internal/ehcocore/engine.go:128-157 | the same for a client, starting from the primary address |
| EhcoEngine.Engine.BackOff | internal/ehcocore/engine.go:532-542 | the restart delay starts at one second and doubles up to thirty |
| EhcoEngine.Engine.RestartEngineFromDB | internal/ehcocore/engine.go:579-608 | nothing happens unless a run is expected and the stored configuration is active; then the child is replaced |
| EhcoEngine.Engine.HandleProbe | internal/ehcocore/engine.go:698-739 | the counters follow the failover rule and a switch replaces address and child in one critical section |
| Supervision.StepKeepsInv | internal/ehcocore/engine.go:106-157 | every critical section keeps: one live child at most and it is the slot's, one open stop channel exactly while a run is expected, a client on the active address |
| Supervision.EveryRunIsSafe | internal/ehcocore/engine.go:507-576 | so does every interleaving of calls, supervisors and monitors, stale ones included |
| Supervision.SafeFromStart | internal/ehcocore/engine.go:469-490 | from the initial state there is never a second live child and no stop channel is closed twice |
| Supervision.NoStartWhileStopped | internal/ehcocore/engine.go:579-585 | without an expected run no step but a Start call starts a process |
| Supervision.QuietUntilStart | internal/ehcocore/engine.go:698-702 | nor does any run without Start calls |
| Supervision.StopStaysStopped | internal/ehcocore/engine.go:463-476 | after `StopEngine` in any reachable state nothing is live and nothing is started until the next Start call |
| Supervision.StopSignalsEveryone | internal/ehcocore/engine.go:544-547 | a stop lets every goroutine that sleeps on its channel leave |
| Supervision.WrongKindIffStaleSwitch | internal/ehcocore/engine.go:698-717 | a step puts the wrong kind of process in the slot exactly when it is a launching switch of a client's monitor in server mode |
| Supervision.StaleMonitorReplacesServer | internal/ehcocore/engine.go:698-717 | there is a run from the start in which this happens |
| Supervision.StaleSupervisorKillsHealthyChild | internal/ehcocore/engine.go:550-566 | there is a run from the start in which the healthy child of a second start is killed by the supervisor of the first |
| Supervision.ChildKilledIff | internal/ehcocore/engine.go:579-608 | apart from calls and crashes a step kills the live child exactly when a run is expected and it is a restart with an active configuration or a monitor that switches |
| Supervision.RestartKillsOnlyNewer | internal/ehcocore/engine.go:515-566 | whatever runs when a supervisor restarts was started after it found the child dead; if nothing was, nothing runs |
| FailoverRuns.SwitchesArePaidInRuns | internal/ehcocore/engine.go:690-738 | in every interleaved run three probes of a monitor pay for each of its switches |
| FailoverRuns.UndisturbedMonitorFollows | internal/ehcocore/engine.go:690-738 | while nobody else changes the active address, a monitor in a run does what the isolated one does with the same probe results |
| FailoverRuns.StaleMonitorSwitchesFreshClient | internal/ehcocore/engine.go:690-738 | there is a run from the start in which a client started again is switched by the first run's monitor before its own has probed once |
| ClientAddress.StartBeginsAtConfigured | internal/ehcocore/engine.go:128-157 | in any state, starting the client leaves a child towards the bridge when it is enabled and set, else towards the remote, and that as the active address; a failed launch leaves the address too |
| ClientAddress.StartRunsServer | internal/ehcocore/engine.go:106-125 | starting the server leaves a server in the slot and the client's address alone |
| ClientAddress.StartRenewsChannel | internal/ehcocore/engine.go:106-157 | a start closes the stop channel of the run before, and a launch that works opens a new one |
| ClientAddress.StopEmptiesSlot | internal/ehcocore/engine.go:463-490 | a stop empties the slot, kills its child and closes the channel; address, mode and delay stay |
| ClientAddress.RestartKeepsAddress | internal/ehcocore/engine.go:579-608 | a restart runs what ran before, a client towards the address in use and only without one towards the configured address |
| ClientAddress.SupervisorMoves | internal/ehcocore/engine.go:510-576 | a supervisor leaves exactly when it finds no run expected; else a live child lets it sleep, a dead one back off and then restart |
| ClientAddress.RestartOutcome | internal/ehcocore/engine.go:556-566 | a failed restart keeps the delay and goes back to the check, any other resets the delay to one second |
| ClientAddress.ProbeMovesAway | internal/ehcocore/engine.go:704-717 | a third failure in a row at the first address moves the client to the second |
| ClientAddress.ProbeMovesBack | internal/ehcocore/engine.go:723-735 | a third success in a row at the second address moves it back to the first |
| ClientAddress.OtherProbesMoveNothing | internal/ehcocore/engine.go:698-739 | any other probe leaves the engine as it is |
| ClientAddress.TickOutcome | internal/ehcocore/engine.go:681-694 | a monitor leaves at a tick exactly when no run is expected or the engine is in server mode |
| ClientAddress.ProbeCounts | internal/ehcocore/engine.go:704-738 | a probe against the side in use is counted and clears the other counter, one for it clears what was counted against it, and a count of three starts anew |
| ClientAddress.DelaysDouble | internal/ehcocore/engine.go:532-542 | delays in a row after a start or a working restart are 2, 4, 8, 16 and then 30 seconds |
| LexicalPath.CleanRooted | internal/filecore/filecore.go:67-106 | cleaning a rooted path gives a slash and components that are neither dots nor empty |
| LexicalPath.CleanFixesRooted | internal/filecore/filecore.go:67-106 | such a path is clean already |
| LexicalPath.CleanBehindRooted | internal/filecore/filecore.go:67-106 | cleaning a path behind a root walks its components from the root's stack, and cannot climb above `/` |
| LexicalPath.BaseOfRooted | internal/handlers/files.go:275 | the base of a rooted clean path is its last component, and of `/` is `/` |
| CleanRules.DropStep | internal/filecore/filecore.go:67-106 | cleaning drops repeated slashes and dots |
| CleanRules.CancelStep | internal/filecore/filecore.go:67-106 | a dot-dot goes together with the component before it |
| CleanRules.StayAtRoot | internal/filecore/filecore.go:67-106 | a dot-dot at the root is dropped |
| CleanRules.DropTrailingSlash | internal/filecore/filecore.go:67-106 | a slash at the end is dropped |
| CleanRules.DropFirstStep | internal/filecore/filecore.go:67-106 | the same rules hold at the front of a path that is not rooted |
| CleanRules.LeftAlone | internal/filecore/filecore.go:67-106 | what no rule applies to is left alone, and the empty path becomes a dot |
| SandboxPath.LastIndex | internal/filecore/filecore.go:85-91 | the last occurrence of the marker is found, and none only when there is none |
| SandboxPath.NoOverlap | internal/filecore/filecore.go:82-91 | two occurrences of the marker never overlap |
| SandboxPath.MarkerBelowRoot | internal/filecore/filecore.go:82-91 | below the root the last marker is the root's own |
| SandboxPath.SlashMarkerRebases | internal/filecore/filecore.go:85-87 | a clean path with the marker is rebased below the root by what follows its last marker |
| SandboxPath.BareMarkerRebases | internal/filecore/filecore.go:88-91 | one with the marker but no slash behind it goes to the root, below it, or beside it when dot-dot follows |
| SandboxPath.PlainRebases | internal/filecore/filecore.go:97-105 | one without a marker goes below the root, its leading dot-dots taken off |
| SandboxPath.FixedIffSettled | internal/filecore/filecore.go:67-106 | a rooted clean path is mapped to itself exactly when it is settled: below the root with no later marker, the root itself, or temporary |
| SandboxPath.ResultIsClean | internal/filecore/filecore.go:67-106 | every result is a rooted clean path |
| SandboxPath.IdempotentIffSettles | internal/filecore/filecore.go:67-106 | on a clean path the second mapping changes nothing exactly when the path settles, read off the path before the call |
| SandboxPath.CleanPathThatEscapes | internal/filecore/filecore.go:88-91 | `data/manager../x` is clean and mapped to different places by one and by two calls |
| Containment.InsideIffContained | internal/filecore/filecore.go:64-106 | for every text, the result lies inside the root exactly when what follows its last marker ends inside, or without a marker unless it is a temporary path |
| Containment.LandsBehindSlashMarker | internal/filecore/filecore.go:85-87 | every text with `data/manager/` lands where what follows the last one walks to from the root |
| Containment.LandsBehindMarker | internal/filecore/filecore.go:88-91 | every other text with `data/manager` lands where what follows the last one walks to |
| Containment.LandsWithoutMarker | internal/filecore/filecore.go:93-105 | every text without a marker lands below the root, except that a temporary path is only cleaned |
| Containment.CleanInsideIffContained | internal/filecore/filecore.go:64-106 | for a clean text: with the marker and its slash always; with the bare marker unless a leading dot-dot is not led back by `manager`; without one unless it is temporary |
| Containment.DotDotLeavesForSibling | internal/filecore/filecore.go:85-87 | a dot-dot behind the last marker leaves the root for a sibling, which the handler's string test accepts exactly when its name starts with `manager` |
| Containment.PrefixTestIff | internal/handlers/files.go:60-68 | the handler's string test accepts what is inside and siblings whose name extends the root's, nothing else |
| SqlLike.LikeOwnPrefix | internal/handlers/files.go:188-190 | a path is matched by every prefix of it followed by `%`, wildcards or not |
| SqlLike.LikePrefixIff | internal/handlers/files.go:1144-1146 | without wildcards the pattern matches exactly the paths that start with the prefix up to the case of letters |
| SqlLike.LikeConcatIff | internal/handlers/files.go:1144-1146 | two patterns in a row match exactly what falls into a part for each |
| SqlLike.LikeOneIff | internal/handlers/files.go:1144-1146 | `%` matches everything, `_` one character, a letter itself in either case |
| SqlLike.LikeSuffixIff | internal/filecore/stream.go:340-344 | without wildcards `%p` matches exactly the paths that end in `p` up to the case of letters |
| FileStore.First | internal/filecore/filecore.go:215-241 | a query finds the matching row with the smallest id, and none only when no row matches |
| FileStore.FileCore.SafeLink | internal/filecore/filecore.go:142-163 | the destination is removed first, then linked or copied from the source if that is still there |
| FileStore.FileCore.UpdateRegistryTags | internal/filecore/filecore.go:419-440 | empty tags are filled in, set tags stay, and the row is saved only when some tag changed |
| FileStore.FileCore.RegisterFile | internal/filecore/filecore.go:193-284 | the whole new state in each branch: new row and queued upload, link to the record's file, repointed record, or failure |
| FileStore.FileCore.UploadFileToS3 | internal/filecore/uploader.go:162-192 | the object holds the file's bytes, an empty key is an error, and a disabled store reports success without keeping anything |
| FileStore.FileCore.ArchiveNew | internal/filecore/filecore.go:336-399 | a new content gets its row, its object and then its key; a row that another worker created in the meantime is taken for a known content's |
| FileStore.FileCore.ArchiveKnown | internal/filecore/filecore.go:358-386 | a known content is uploaded again exactly when it has no key or its object is not found |
| FileStore.FileCore.RegisterAndArchiveToS3 | internal/filecore/filecore.go:311-415 | the whole new state, races on creating the row included, with the local copy and the temporary artifact swept only after success |
| StoreSafety.RegisteredRows | internal/filecore/filecore.go:215-284 | registering keeps every row's checksum and key, moves a path only away from a missing file, and adds at most the content's own row |
| StoreSafety.RegisteredKeepsContent | internal/filecore/filecore.go:241-258 | in a sound store registering loses no content held on disk or in the object store |
| StoreSafety.RegisteredKeepsSound | internal/filecore/filecore.go:193-284 | and keeps the store sound: one row per checksum, objects matching their checksums, and each row's file matching its own or a stub of what the object store holds |
| StoreSafety.ArchivedDisk | internal/filecore/filecore.go:401-410 | archiving removes at most the path and its temporary artifact, the path only after success |
| StoreSafety.ArchivedObjects | internal/filecore/filecore.go:358-399 | after a successful archiving the object under the checksum is the content |
| StoreSafety.ArchivedKeepsContent | internal/filecore/filecore.go:311-415 | with the store enabled or the file kept, archiving loses no content |
| StoreSafety.ArchivedKeepsSound | internal/filecore/filecore.go:311-415 | and keeps the store sound |
| StoreSafety.LandedIsSound | internal/filecore/filecore.go:35-61 | a queued upload that runs later, or fails, keeps the store sound and loses nothing |
| StoreSafety.StepKeepsAllHeld | internal/filecore/filecore.go:193-415 | after every step each registered content is on disk or in the object store |
| StoreSafety.NoContentIsLost | internal/filecore/filecore.go:193-415 | so it is after any run of registrations, archivings, uploads, downloads, stubs made of archived files, and tolerated losses |
| StoreSafety.DownloadIsSafeIff | internal/torrent/pipeline.go:219-226 | a write to a path, a download or a stub, keeps the store sound and everything held exactly when the rows there get their content back or have their object, a queued upload gets its content, and the old file has a backup |
| StoreSafety.LossIsSafeIff | internal/filecore/filecore.go:358-371 | the loss of a file is harmless exactly when it has a backup, that of an object exactly when its content is on disk and no stub stands for it |
| StoreSafety.StubAfterArchive | internal/torrent/pipeline.go:205-226 | after a successful archiving that kept the file, the file may become a stub unless an upload of it is still queued |
| StoreSafety.ArchiveStubRegister | internal/torrent/pipeline.go:205-226 | archive, stub, then register another copy: everything held stays held, the archived content in the object store |
| StoreSafety.RewrittenMasterLosesContent | internal/filecore/filecore.go:241-253 | outside that condition a run from the empty store loses a content: the record's file is rewritten, and registering the other copy replaces it |
| StoreSafety.StubWithoutObjectLosesContent | internal/filecore/filecore.go:241-253 | when the object of a stub vanishes, registering the second copy that is still on disk loses the content |
| StoreSafety.LateUploadOverwritesObject | internal/filecore/filecore.go:35-61 | when a file becomes a stub while an upload of it is queued, the upload overwrites the archived object with the stub |
| StoreSafety.RegisterLosesIff | internal/filecore/filecore.go:241-253 | in any store, registering an only copy loses it exactly when the deduplicating branch is taken, whose master file then holds other bytes |
| StoreSafety.RegisteredReadsBackIff | internal/filecore/filecore.go:241-258 | after success the path reads as before exactly when the file it was linked to holds the same bytes |
| StoreSafety.ArchivedExactly | internal/filecore/filecore.go:311-415 | a successful archiving removes the file exactly when it was not to be kept and could be, and stores the object unless the store is disabled or a present object is trusted |
| StoreSafety.ArchiveLosesIff | internal/filecore/filecore.go:358-410 | in any store, archiving an only copy loses it exactly when it is removed with the store disabled or the record's object trusted unread |
| StoreSafety.SafeLinkKeepsSourceIff | internal/filecore/filecore.go:142-163 | the source survives a link exactly when it is not the destination or no removal took place |
| Records.RegisteredNewRecord | internal/filecore/filecore.go:217-238 | registering new content adds one row with the caller's tags, the path and the file's length, hands it back, and queues an upload when the store is enabled |
| Records.RegisteredKnownRecord | internal/filecore/filecore.go:241-284 | registering known content hands back its first row with set tags kept and empty ones filled in, moved to the call's path when its own file is gone; it is written exactly when the caller gave a missing tag and the save goes through |
| Records.RegisteredKnownFailsIff | internal/filecore/filecore.go:241-258 | that fails exactly when the duplicate cannot be linked |
| Records.ArchivedKnownRecord | internal/filecore/filecore.go:358-386 | archiving known content does the same, with the checksum as key unless the row's object was reported present; what is written follows from the two updates |
| Records.ArchivedNewRecord | internal/filecore/filecore.go:338-399 | archiving new content adds one row with the caller's tags and the file's length, its key only after the upload and in the registry only when the update goes through |
| Records.ArchivedRacedRecord | internal/filecore/filecore.go:351-386 | when another worker was faster, its row is completed as any known content's |
| Records.FailuresChangeNothing | internal/filecore/filecore.go:193-356 | an unreadable file or a row that cannot be made changes nothing |
| Records.ArchivedCleansUp | internal/filecore/filecore.go:401-410 | after success the `.gtmp` artifact is gone, the file exactly when it was not to be kept and could be removed, and every other file stays |
| Records.LandedStores | internal/filecore/filecore.go:35-61 | a queued upload that goes through stores the file under its checksum and the key in the content's first row |
| Records.LinkMeaning | internal/filecore/filecore.go:142-163 | a link that works leaves the source's bytes at the destination, one that fails at most a part of them |
| Records.StepKeepsTags | internal/filecore/filecore.go:419-440 | no step changes a tag that is set |
| Records.TagsStay | internal/filecore/filecore.go:419-440 | so in any run a tag stays as it was first given |
| Rehydrate.FirstHitIsFirst | internal/filecore/stream.go:185-317 | an attempt list is answered by its first attempt that settles the call |
| Rehydrate.ResolvedByFirstTier | internal/filecore/stream.go:185-317 | some tier of the priority list always answers, every earlier tier was empty-handed, and an object handed out is physically present |
| Rehydrate.ReuseHidesIff | internal/filecore/stream.go:263-283 | reusing the query variable changes the search by checksum exactly when the file name is the key of one row and the checksum of another |
| Rehydrate.ReuseIsHarmlessWhenSound | internal/filecore/stream.go:263-283 | in a sound store it changes nothing |
| TierOrder.ExactObjectIsRead | internal/filecore/stream.go:206-216 | when the path's first row has an object that is there, it is read, whatever else there is |
| TierOrder.LocalFileIsUsed | internal/filecore/stream.go:218-223 | else a real local file, one that is not the zeros of an archived torrent file, is used |
| TierOrder.PendingIsRefused | internal/filecore/stream.go:225-233 | else a row without a key, or any row with the store disabled, is refused as pending |
| TierOrder.TorrentObjectIsRead | internal/filecore/stream.go:235-250 | else the object of the torrent's first archived row, whatever the name and the cloud |
| TierOrder.NamesakeObjectIsRead | internal/filecore/stream.go:339-345 | else, only without such a row, that of the first archived row whose path ends in the file's name |
| TierOrder.NamedKeyIsRead | internal/filecore/stream.go:257-270 | else the object whose key is the name, when a row has that key |
| TierOrder.NamedChecksumIsRead | internal/filecore/stream.go:271-280 | else, only without such a row, that of the row whose checksum is the name |
| TierOrder.RawKeyIsRead | internal/filecore/stream.go:283-293 | else the object under the name itself, when it looks like a key |
| TierOrder.CloudDecidesLast | internal/filecore/stream.go:295-316 | only when none of these objects is there the cloud decides, and only without a candidate the stub is used or nothing found |
| TierOrder.CloudYieldsFirstWhole | internal/filecore/rcloneindex.go:53-80 | the cloud yields its first candidate that comes in whole and not empty |
| Rehydrate.TempDir.TryS3 | internal/filecore/stream.go:388-446 | an object is copied to one new temporary file, a missing object falls through, and an error leaves no file behind |
| Rehydrate.TempDir.MaterializeRemoteFile | internal/rclone/materialize.go:120-149 | a whole, non-empty copy leaves one temporary file, anything else none |
| Rehydrate.TempDir.TryRcloneIndex | internal/filecore/rcloneindex.go:53-80 | the first candidate that can be fetched wins; without candidates the tier falls through, and when all fail it is an error |
| Rehydrate.TempDir.Recover | internal/filecore/stream.go:232-317 | the tiers behind the exact row answer in the order of the priority list |
| Rehydrate.TempDir.MaterializeForUpload | internal/filecore/stream.go:185-317 | the code refines the priority list and accounts for every temporary file |
| Rehydrate.ArchivedRecord | internal/filecore/filecore.go:358-399 | after a successful archiving the row of the content carries its checksum as key exactly when the key was stored, and none otherwise |
| Rehydrate.FirstRecordDecidesContent | internal/filecore/stream.go:195-216 | what is read under a path is a content exactly when the path's first row is that content's |
| Rehydrate.ArchiveThenMaterialize | internal/filecore/stream.go:185-230 | archive then materialize gives back the original bytes exactly when the key was stored; otherwise the local file if it is left, else "upload pending" |
| Rehydrate.StubThenMaterialize | internal/filecore/stream.go:185-230 | a torrent file that was archived and made a stub is read from the object store exactly when the key was stored |
| Rehydrate.UnreachableThenLocal | internal/filecore/stream.go:217-230 | when the store does not answer, the local copy that is still there is read, and it is the original |
| Rehydrate.RawPathRoundTrip | internal/filecore/filecore.go:608-618 | the same from the raw path: the lookup that normalises a second time finds the archived content's row |
| Rehydrate.RoundTripExample | internal/filecore/filecore.go:311-415 | for every installation and content a plain file below the root makes the round trip, and is lost behind "upload pending" when the update of the key fails |
| DnsSweep.Telemetry.PushResult | internal/dns/engine.go:514-518 | the result waits in the candidate buffer |
| DnsSweep.Telemetry.FlushAccumulated | internal/dns/engine.go:520-530 | waiting candidates go to one broadcast, an empty buffer to none |
| DnsSweep.Telemetry.Deliver | internal/dns/engine.go:490-495 | a result is queued, or saved on its own when the channel is full |
| DnsSweep.Telemetry.SaverTake | internal/dns/engine.go:405-414 | the saver takes the oldest result and saves at one hundred |
| DnsSweep.Telemetry.SaverTick | internal/dns/engine.go:415-417 | the timer saves the batch and broadcasts the candidates |
| DnsSweep.Telemetry.Begin | internal/dns/engine.go:471 | a diagnostic that begins is one more in flight |
| DnsSweep.Telemetry.End | internal/dns/engine.go:473 | one that returns is one less |
| DnsSweep.Telemetry.Tally | internal/dns/engine.go:480 | and counts as tested |
| DnsSweep.Telemetry.Classify | internal/dns/engine.go:481-485 | and as healthy or failed by its verdict |
| DnsSweep.WorkKeepsCounters | internal/dns/engine.go:471-485 | every atomic addition keeps each counter equal to the number of jobs it stands for |
| DnsSweep.StepKeepsInv | internal/dns/engine.go:439-511 | every step keeps the counters, the chunk discipline, and each result in exactly one place |
| DnsSweep.SweepIsSafe | internal/dns/engine.go:365-512 | at every moment of every interleaving no job ran twice, no result is saved or shown twice, no more jobs run than a chunk holds, InFlight is their number plus one for each panic so far, a save gets 1 to 100 results |
| DnsSweep.SweepEndsComplete | internal/dns/engine.go:365-512 | at the end every job ran once, Tested is Healthy plus Failed is all jobs that did not panic, and each of their results went to one save and one broadcast |
| DnsSweep.DeliveredResult | internal/dns/engine.go:490-495 | a result is queued, or saved alone exactly when 2048 wait |
| DnsSweep.SaverSavesAtHundred | internal/dns/engine.go:405-414 | nothing is saved before one hundred results, then these in one call and in order |
| DnsSweep.TimerSavesWhatThereIs | internal/dns/engine.go:399-417 | the timer and the end save and show what there is, in one call each |
| DnsSweep.OthersSaveNothing | internal/dns/engine.go:439-511 | no other step saves or shows anything |
| DnsSweep.StepMakesProgress | internal/dns/engine.go:439-511 | every step but the timer shortens the work left, so no sweep runs forever |
| DnsSweep.SweepNeverStuck | internal/dns/engine.go:439-511 | until the saver is done some other step can be taken |
| GeoRace.SourceCount | internal/geo/aggregator.go:220-306 | no more sources take part than the channel holds |
| GeoRace.StepKeepsInv | internal/geo/aggregator.go:220-312 | every step keeps the accounting of sent results and the reasons for cancellation |
| GeoRace.RaceIsSafe | internal/geo/aggregator.go:209-327 | in every interleaving nothing is sent on the closed channel, an answer is some source's result, and "all failed" means that all failed or the caller gave up |
| GeoRace.SourcesTakePart | internal/geo/aggregator.go:219-306 | exactly the sources that are switched on, with a key where one is needed, take part |
| GeoRace.FirstSentWins | internal/geo/aggregator.go:314-326 | the caller's answer is the result that was sent first |
| GeoRace.OthersAreCancelled | internal/geo/aggregator.go:214-236 | once the caller returns or a source has handed over its result, all fetches are cancelled |
| GeoRace.NoSenderBlocks | internal/geo/aggregator.go:226-236 | a source with a result can always send it |
| GeoRace.CallerIsServed | internal/geo/aggregator.go:314-326 | once every fetch is back the caller is never stuck |
| GeoRace.StepShortens | internal/geo/aggregator.go:220-326 | every step but the caller's cancellation shortens the work left |
| GeoRace.RaceEnds | internal/geo/aggregator.go:308-326 | a race takes at most 17 steps, and when none is left all sources are done, the channel is closed and the caller has its answer |
| BulkImport.Collector.FlushBatch | internal/handlers/dns.go:1254-1279 | a non-empty batch becomes one write, an empty one none |
| BulkImport.Collector.Offer | internal/handlers/dns.go:1333-1346 | a resolver is queued exactly when it is the first arrival of a key the database lacks |
| BulkImport.Collector.Receive | internal/handlers/dns.go:1324-1352 | one line counts once: as added, as duplicate, or as empty |
| BulkImport.Collector.Run | internal/handlers/dns.go:1318-1357 | wherever ticks fall, the writes put end to end are the first arrivals minus known keys, each of 1 to 100 rows, and the counters are those of the lines |
| BulkImport.Collector.Enqueue | internal/handlers/dns.go:1340-1346 | the hundredth resolver writes the batch, in order, any earlier one waits |
| BulkImport.Collector.Handle | internal/handlers/dns.go:1318-1357 | after a tick nothing waits and the batch was one write; a line writes only full hundreds |
| BulkImport.LineCountsIff | internal/handlers/dns.go:1324-1352 | a line counts as added exactly when there is more to write after it than before |
| BulkImport.TickCountsNothing | internal/handlers/dns.go:1353-1356 | a tick counts nothing |
| BulkImport.WritesMissingKeysOnce | internal/handlers/dns.go:1114-1123 | the import writes exactly the missing keys, each once, in whatever order the workers finish |
| BulkImport.ImportTwiceAddsNothing | internal/handlers/dns.go:1333-1338 | importing what is there already writes nothing |
| BulkImport.ProgressAddsUp | internal/handlers/dns.go:1291-1299 | Processed is the number of results received and the sum of added, duplicate and empty ones |
| BulkImport.KeysEqualIff | internal/handlers/dns.go:1120 | two resolvers share a key exactly when they are equal or a colon in one protocol swallows the end of the other address |
| BulkImport.DedupIsByAddressAndProtocol | internal/handlers/dns.go:1333-1338 | without colons in protocols a resolver is dropped only for an equal address and protocol |
| BulkImport.OverlapHidesResolver | internal/handlers/dns.go:1333-1338 | with an overlapping key the later resolver is dropped as a duplicate |
| BulkImport.ColonInProtocolOverlaps | internal/handlers/dns.go:1159-1162 | the free-text protocol column makes such an overlap possible |
| Relocation.Registry.FindLike | internal/handlers/files.go:1144-1146 | exactly the rows the pattern matches, in order of id |
| Relocation.Registry.Relocate | internal/handlers/files.go:1131-1156 | the row at the source moves alone; without one every matched row moves |
| Relocation.Registry.MoveDirectory | internal/handlers/files.go:1140-1155 | updating rows one by one moves each matched row once and leaves the others |
| Relocation.OutsideKeptIff | internal/handlers/files.go:1131-1156 | rows neither at nor under the source keep their place exactly when a row stands at the source or the pattern matches nothing else |
| Relocation.DirectoryArrives | internal/handlers/files.go:1140-1155 | a directory without a row of its own arrives whole |
| Relocation.OnlyFirstMoves | internal/handlers/files.go:1132-1138 | with a row at the source, every other row stays behind |
| Relocation.AllArriveIff | internal/handlers/files.go:1131-1156 | everything at or under the source arrives exactly when no row stands at the source or that row has no other beside or below it (or the two places are the same) |
| Relocation.BackIff | internal/handlers/files.go:1151-1154 | a path returns exactly when it was truly under the source, or was matched by neither pattern |
| Relocation.RoundTripIff | internal/handlers/files.go:1131-1156 | moving there and back restores the registry exactly under the condition of the branch taken |
| Relocation.PlainDirectoryReturns | internal/handlers/files.go:1131-1156 | paths without wildcards, spelled one way, with nothing at or under the destination, return |
| Relocation.UnderscoreDragsNeighbour | internal/handlers/files.go:1144-1154 | moving `/d/a_b` moves `/d/aXb/f` to `/d/c//d/aXb/f` |
| Deletion.S3Registry.FindHits | internal/handlers/files.go:941-955 | exactly the rows at the path or matched by the pattern |
| Deletion.S3Registry.DeleteRecord | internal/handlers/files.go:960-966 | one row goes, and its object when the store is enabled and carries the deletion out |
| Deletion.S3Registry.DeleteS3Entries | internal/handlers/files.go:937-971 | all hit rows and their objects go, nothing else, in whatever order the rows are taken |
| Deletion.OnlyInsideDeletedIff | internal/handlers/files.go:937-971 | exactly the rows at or under the path go if and only if the pattern matches no row elsewhere (and, with the store disabled and a path that ends with a separator, still all below) |
| Deletion.DisabledMissesBelowSeparator | internal/handlers/files.go:938-955 | with the store disabled, deleting a path that ends with a separator misses every row directly below it |
| Deletion.OutsideObjectLostIff | internal/handlers/files.go:952-966 | a row outside the path loses its object exactly when the pattern matches it or a row with the same key, and the store carries the deletion out |
| Deletion.OutsideObjectLostIffMatched | internal/handlers/files.go:952-966 | with unique keys, exactly when the pattern falsely matches its own path |
| Deletion.UnderscoreDeletesNeighbour | internal/handlers/files.go:952-966 | deleting `/d/a_b` deletes the row and the object of `/d/aXb/f` |
| TorrentEntries.FileLocation | internal/handlers/files.go:271-272 | joining and cleaning a torrent's path walks its components from the save directory |
| TorrentEntries.PathPrefixIff | internal/handlers/files.go:283 | a string prefix of clean paths is a component prefix, or a sibling whose name extends the last component |
| TorrentEntries.EntryMeaning | internal/handlers/files.go:271-297 | a file in the directory shows itself, one further below its folder, one below such a sibling a ghost `..`, any other nothing |
| TorrentEntries.EntryOfFileIn | internal/handlers/files.go:271-297 | the same for a file given by its directory and its name |
| TorrentEntries.NamesAfterTorrent | internal/handlers/files.go:266-300 | the names are the earlier ones and those wanted files give; a deselected file gives none |
| TorrentEntries.LastWantedDecides | internal/handlers/files.go:266-300 | the last wanted file that gives a name decides its entry, whatever was there |
| TorrentEntries.OtherEntriesStay | internal/handlers/files.go:266-300 | an entry no wanted file gives stays as it was |
| TorrentEntries.GhostIff | internal/handlers/files.go:283-296 | the ghost appears exactly when a wanted file lies below a sibling whose name extends the listed one |
| TorrentEntries.GhostExample | internal/handlers/files.go:283-296 | listing `/d/a` while a torrent saves `/d/ab/f` shows the entry `..` |
| VirtualListing.Listing.MergeTorrent | internal/handlers/files.go:266-300 | the loop computes the entries of the wanted files, later ones winning |
| VirtualListing.Listing.MergeS3VirtualFiles | internal/handlers/files.go:178-228 | the loop computes the entries of the archived rows, earlier ones winning, and nothing with the store disabled |
| VirtualListing.Listing.FindByName | internal/handlers/files.go:463-469 | an entry with the name, or -1 exactly when there is none |
| VirtualListing.Listing.MergePhysical | internal/handlers/files.go:461-478 | in whatever order the map is walked: physical entries keep their place and take a larger file size, other virtual entries follow once each, names are distinct and their union |
| VirtualListing.MergedSizes | internal/handlers/files.go:461-478 | an entry on disk keeps name and kind; a file shows the larger size, a folder its own |
| VirtualListing.OfferedIff | internal/handlers/files.go:188-202 | despite `LIKE`, a row is offered exactly when it is archived and truly lies under the directory |
| VirtualListing.NamesWithArchived | internal/handlers/files.go:194-227 | the virtual names are the earlier ones and those some archived row offers |
| VirtualListing.FirstOfferDecides | internal/handlers/files.go:203-227 | an earlier entry stays, otherwise the first row that offers the name decides file or folder |
| VirtualListing.OfferedKind | internal/handlers/files.go:207-227 | a row offers a folder exactly when it lies below the name, and its own file exactly when it lies at it |
| VirtualListing.OfferedAtEveryLevel | internal/handlers/files.go:178-228 | down the path of an archived row each directory is offered the next name: folders, and last the file with its size and key |
| VirtualListing.EveryLevelListsTheNextName | internal/handlers/files.go:412-478 | whatever is on disk and whatever torrents added, each directory on the way to an archived row lists an entry with the next name |
| VirtualListing.LevelEntry | internal/handlers/files.go:178-478 | that entry is decided by what is on disk, else by a torrent, else by the first row that offers the name: a folder exactly when that row lies below it, else that row's file with its size and key |
| VirtualListing.WayDownIsOpen | internal/handlers/files.go:178-478 | with nothing on disk, no torrent and no archived file at the name, the entry is a folder |
| VirtualListing.FileHidesFolder | internal/handlers/files.go:203-206 | an archived file `/d/a` hides the archived `/d/a/b` |
| RemoteSecrets.MaskOptions | internal/handlers/rclone.go:134-152 | secret options become the marker and the others stay; unreadable options are an error |
| RemoteSecrets.NormalizeKeys | internal/handlers/rclone.go:397-401 | keys are trimmed and lower-cased; of keys that fall together one value survives |
| RemoteSecrets.BuildOptions | internal/handlers/rclone.go:397-424 | the stored options are the normalised request with untouched held secrets put back |
| RemoteSecrets.MergeMeaning | internal/handlers/rclone.go:404-418 | a typed value and every value outside the secret fields is stored as sent; for a secret field left blank the old value is kept when there was one |
| RemoteSecrets.MaskMeaning | internal/handlers/rclone.go:138-151 | exactly the fields named by a secret, up to case, become eight bullets |
| RemoteSecrets.NormMeaning | internal/handlers/rclone.go:397-401 | a normalised key is the key without the white space around it, in lower case |
| RemoteSecrets.LastTypedIsHeld | internal/handlers/rclone.go:397-424 | over any number of saved forms the credential typed last is the one held |
| RemoteSecrets.RoundTripIff | internal/handlers/rclone.go:134-424 | masked options sent back unchanged restore the stored ones exactly when keys are in normal form and no secret is empty |
| RemoteSecrets.EditUnchanged | internal/handlers/rclone.go:134-424 | the same for the two handlers in sequence |
| RemoteSecrets.EmptySecretBecomesMarker | internal/handlers/rclone.go:412-418 | a stored empty secret is replaced by the marker |
| RemoteSecrets.HeldSecretSurvives | internal/handlers/rclone.go:412-418 | a held secret survives any number of saved forms that leave its field alone |
| RemoteSecrets.MarkerNeverReplacesSecret | internal/handlers/rclone.go:412-418 | whatever a form sends, neither the marker nor an empty value takes the place of a held credential |
| RemoteSecrets.MaskHidesSecrets | internal/handlers/rclone.go:143-150 | rows that differ only in secrets look the same masked |
| CleverScore.Round | internal/dns/diagnostics.go:142 | to the nearest integer, halves away from zero |
| CleverScore.ScoreIsNearest | internal/dns/diagnostics.go:109-147 | -20000 for dead, -10000 for compromised, else the nearest integer to 50000/latency - 20 jitter - 30 loss + 15 for DNSSEC + 10 for a sinkhole, not below -5000 |
| CleverScore.ScoreSeparatesClasses | internal/dns/diagnostics.go:109-147 | the score tells dead, compromised and other resolvers apart, in this order |
| CleverScore.WorseNeverScoresHigherIff | internal/dns/diagnostics.go:109-147 | through rounding and the floor a measurement that is no better scores no higher, exactly unless it leaves a dead one |
| CleverScore.ScoreIsBounded | internal/dns/diagnostics.go:117-147 | the score of real measurements is at most 50025, and that is reached |

## Left out

- LongestMatch.LoadProviders: reading and downloading the provider files; which strings parse is a parameter.
- Translate.TranslateToEnglish: texts are runes, so invalid UTF-8 is not modelled.
- Supervision.EveryRunIsSafe: killing a process and waiting for it is effective; the URL rewriting and the HTTP handshake of the health probe are a nondeterministic verdict; time is not modelled, a timeout may come at any moment.
- SandboxPath.IdempotentIffSettles: slash-separated paths, a working directory that can be read and a rooted temporary directory; the exact condition is for clean paths.
- FileStore.FileCore.SafeLink: a link copies the bytes and a download replaces the file at its path, so a write through one name of a shared file that is seen under its other name is not modelled; removing a file succeeds.
- FileStore.FileCore.RegisterFile: links as in `SafeLink`; MIME types and sizes on disk play no part in any decision.
- FileStore.FileCore.RegisterAndArchiveToS3: MIME types and timeouts; a timeout is a failed upload.
- StoreSafety.NoContentIsLost: a stub is a write of other bytes, not the freeing of blocks; keys other than the checksum, as the storage guard writes them, are not part of this model; a row that wins a race is one that the same program wrote; the `CheckDuplicateBy*` calls are covered only through `SafeLinkKeepsSourceIff`.
- Rehydrate.TempDir.MaterializeForUpload: the store answers the same throughout one call; how the cloud index finds its candidates is a parameter.
- DnsSweep.SweepEndsComplete: one uncancelled sweep with a positive concurrency limit (with zero the estimate at line 373 divides by zero), a panic only inside a diagnostic; building the job list and the diagnostic itself are parameters. Goroutines are steps on values; the shared buffers and counters are the class `Telemetry`.
- GeoRace.RaceIsSafe: goroutines, channel and contexts are steps on values, because no code in the function updates shared memory otherwise; fetching and parsing are a success or a failure.
- BulkImport.Collector.Run: parsing a line and probing protocols are what a worker's result carries; the write itself may fail in the program and is then only logged; broadcasts of the progress are left out.
- BulkImport.ProgressAddsUp: that the worker pool gives one result for each line is built into the events; the pool is not part of this model.
- BulkImport.Collector.FlushBatch: the two databases are one record of writes, and a write that fails is only logged in the program.
- Relocation.Registry.Relocate: the rename on disk that follows; rows are named by their place in the order of ids.
- Deletion.S3Registry.DeleteS3Entries: whether the store deletes an object is decided by its key; the files on disk and the storage guard's purge are left out.
- VirtualListing.Listing.MergePhysical: modification times, extensions, the badge on physical files and the entries the storage guard offloaded are left out.
- RemoteSecrets.NormalizeKeys: case mapping is that of ASCII letters; validation of names and flags and the computing of secret fields are left out.
- CleverScore.WorseNeverScoresHigherIff: arithmetic is over the reals, without NaN or infinities.
- The downloader, the domain checker, the threshold clamps, DNS tracing, multipart naming and the HTTP, SDK and database wiring: either they have no clean invariant or they would add easy members only.
