# Models of the gem5 support scripts

This project models the parts of gem5's Python tooling that carry real invariants, and
proves what those tools are for. Each file is one module.

- `PipeQueue`, `PipeTrace`, `PipeTimeline`: the pipeline viewer. A bounded reorder queue
  prints instructions in sequence order; its documented assumption is shown to be the exact
  one, and reader, queue and filter together are shown to sort and then filter.
- `UpgradeGraph`, `UpgradeScripts`, `UpgradeRegistry`, `UpgradeFile`: the checkpoint upgrader.
  The worklist over tags and dependencies as a state machine, what a set of scripts says, the
  registries that are filled and chained in place from them, and the text of the tags in the
  file, which a second run starts from.
- `SectionNames`, `Aggregator`: merging checkpoints into one. Section names stay apart and
  relocated addresses keep their meaning.
- `Framing`, `DepTrace`, `TraceFile`: length-prefixed messages, the text form of dependency
  traces, and whole trace files turned into text and back.
- `PortBinder`: binding ports from a saved configuration in one sorted pass.
- `SimPoint`, `ScriptCheckpoints`: taking and restoring checkpoints around a simulator that
  may return for other reasons.
- `CacheTree`: the recursive cache tree of the memory tester.
- `CopyrightDates`, `LogRoll`, `Ranges`: year ranges, the rolling log, the swept sizes.
- `Results`, `Finite`, `Arith`, `Sorting`, `Text`, `Bits`: shared definitions. `Sorting` is a stable
  sort, `Text` has strings and decimal numbers, `Bits` has Python's bit operators on integers
  of any size and sign.

Where the source changes state, so does the model: classes and methods with loops are
proved against functions on values, and the properties are proved of those functions for
all inputs, all runs and all iteration orders.

## Where the code and its promises differ

- A tag that depends on a tag with a downgrader may be applied before its removal
  (`RemovalPromiseExactly`), although the header of `cpt_upgrader.py` says it waits.
- Sorting connections does not make one direction of each pair bindable
  (`SortedPassIsNotComplete`), although a comment in `read_config.py` says so;
  `SucceedsExactly` says when the pass does succeed.
- A benchmark's own checkpoint ends a periodic series early (`CompleteExactly`), because the
  exit cause is not refreshed.
- Names with a two-digit index sort in order for at most 100 checkpoints
  (`NamesSortedExactly`).
- Year ranges are read back only between four-digit years (`CopyrightDates.RoundTripExactly`).
- A short memory file shifts everything copied after it (`RelocationExactly`).
- Messages of length zero or of 2^32 bytes and more do not survive framing, except that a last
  one of 2^63 bytes or more is read to the end of the file (`Framing.RoundTripExactly`).
- A second run of the upgrader may have something to do: the deprecated tags are read first and
  never written, and a tag with white space in it is read back as several
  (`SecondRunExactly`, `SecondRunRepeats`).

Python 2 leftovers are read as intended: ports compare lexicographically, and text written to
binary files is bytes.

## Model

| member | source | states |
|---|---|---|
| `PipeQueue.PrintQueue.constructor` | FinalProject/gem5/util/o3-pipeview.py:45-66 | the queue starts empty and `Valid()`: what is printed is always what has been popped, less what is out of range or squashed |
| `PipeQueue.PrintQueue.QueueInst` | FinalProject/gem5/util/o3-pipeview.py:212-227 | queueing one instruction in place takes the queue and the popped list to the state of the pure `Enqueue`, keeping `Valid()` |
| `PipeQueue.PrintQueue.PrintInsts` | FinalProject/gem5/util/o3-pipeview.py:231-277 | sorting and popping down to the lower threshold equals `Drain` of the old state |
| `PipeQueue.PrintQueue.PrintFront` | FinalProject/gem5/util/o3-pipeview.py:243-277 | the popping loop leaves exactly `lower` queued and pops the smallest sequence numbers in order |
| `PipeQueue.PrintQueue.PrintItem` | FinalProject/gem5/util/o3-pipeview.py:244-277 | one popped instruction is printed exactly when it is in the tick and instruction ranges and, if asked for, committed |
| `PipeQueue.PrintedExactly` | FinalProject/gem5/util/o3-pipeview.py:244-277 | of what has been popped exactly the instructions are printed that pass the five comparisons, each as often as it was popped |
| `PipeQueue.QueueBounded` | FinalProject/gem5/util/o3-pipeview.py:212-227 | for every trace and all thresholds the queue never holds more than the larger threshold between calls |
| `PipeQueue.Conserved` | FinalProject/gem5/util/o3-pipeview.py:212-277 | for every kind of instruction, popped plus still queued equals queued, at every point of every run |
| `PipeQueue.PopsEachOnce` | FinalProject/gem5/util/o3-pipeview.py:212-277 | over a whole run every queued instruction is popped exactly once |
| `PipeQueue.PoppedThenRest` | FinalProject/gem5/util/o3-pipeview.py:212-277 | the invariant of every run within the displacement: what has been popped, then what is queued and still to come once sorted, is the sorted trace |
| `PipeQueue.PopsInOrder` | FinalProject/gem5/util/o3-pipeview.py:212-277 | if no instruction is preceded by more than `minThreshold` larger sequence numbers, the bounded queue gives the same order as sorting the whole trace |
| `PipeQueue.OrderGuaranteedExactly` | FinalProject/gem5/util/o3-pipeview.py:212-277 | order is guaranteed for every trace displaced by at most `d` places if and only if `d <= minThreshold` |
| `PipeTrace.SkipTo` | FinalProject/gem5/util/o3-pipeview.py:94-126 | skipping finds the first line at or after a position that satisfies the test |
| `PipeTrace.ProcessTrace` | FinalProject/gem5/util/o3-pipeview.py:69-207 | reading a whole trace prints the pop order of the instructions the pure reader queues, filtered: an instruction is printed as often as it was queued if its sequence number and fetch tick are within each positive bound and, if only committed ones are asked for, it retired, and not at all otherwise |
| `PipeTrace.ReadRegion` | FinalProject/gem5/util/o3-pipeview.py:154-207 | the region loop queues exactly what the pure scan of the lines from there on queues, up to the stop conditions |
| `PipeTrace.ReadLine` | FinalProject/gem5/util/o3-pipeview.py:156-193 | one line updates the instruction being assembled, and a retire line queues it |
| `PipeTrace.QueuedIgnoresOther` | FinalProject/gem5/util/o3-pipeview.py:94-207 | lines that are not pipeline records never change what is queued |
| `PipeTrace.EntryOfGroups` | FinalProject/gem5/util/o3-pipeview.py:94-126 | wherever the requested range starts, reading resumes at the start of an instruction, and no skipped instruction is in range |
| `PipeTrace.ScanGroups` | FinalProject/gem5/util/o3-pipeview.py:154-207 | scanning well-formed groups queues a prefix of the instructions, and what stops it is past the range |
| `PipeTrace.ViewerSortsThenFilters` | FinalProject/gem5/util/o3-pipeview.py:69-277 | end to end: reader, bounded queue and filter together print what sorting all recorded instructions and then filtering would, for every trace within the displacement and drift bounds |
| `PipeTrace.ViewerPrints` | FinalProject/gem5/util/o3-pipeview.py:69-277 | for every trace within the bounds, in terms of the recorded instructions alone: the output is in order of sequence number, and each record occurs as often as an instruction in the ranges prints as it, with the mark of squashed ones and store completions only if asked for |
| `PipeTrace.DriftToleratedExactly` | FinalProject/gem5/util/o3-pipeview.py:154-177 | for a range that is not empty, the viewer is right on every trace that drifts by at most so many ticks and sequence numbers if and only if these are within what reading past the end allows for |
| `PipeTimeline.DrawLine` | FinalProject/gem5/util/o3-pipeview.py:388-416 | the in-place drawing loop produces the column-by-column reference picture of the line |
| `PipeTimeline.GatherEvents` | FinalProject/gem5/util/o3-pipeview.py:374-387 | the events of a line are those of the stages reached within it, in stage order |
| `PipeTimeline.PrintLine` | FinalProject/gem5/util/o3-pipeview.py:369-416 | one line equals its reference, and is reported empty exactly when no event falls on it |
| `PipeTimeline.PrintLines` | FinalProject/gem5/util/o3-pipeview.py:369-416 | all lines equal their references, or the error for a compact line without events |
| `PipeTimeline.PrintInst` | FinalProject/gem5/util/o3-pipeview.py:337-416 | an instruction prints the reference lines, and fails exactly when no stage was reached |
| `PipeTimeline.LinesPrinted` | FinalProject/gem5/util/o3-pipeview.py:337-364 | an instruction gets one line if it lives for less than a line, else all lines from its fetch to its last event |
| `PipeTimeline.LineShows` | FinalProject/gem5/util/o3-pipeview.py:282-416 | a line is one cell for each cycle, and for each stage by name the cell has its letter exactly when its tick falls into that cycle of that line, dispatch only when it differs from issue; a cell without letters shows whether the instruction retired; the label is the tick the line starts at |
| `PipeTimeline.DrawnLeftToRight` | FinalProject/gem5/util/o3-pipeview.py:388 | events are drawn by their place in the line, and those at one place in the alphabetical order of the stages' names |
| `PipeTimeline.OnSomeLine` | FinalProject/gem5/util/o3-pipeview.py:337-378 | a tick lies on some printed line if and only if it is not before the first line's start |
| `PipeTimeline.OnOneLineOnly` | FinalProject/gem5/util/o3-pipeview.py:369-378 | no tick lies on two lines |
| `PipeTimeline.DrawnExactlyWhere` | FinalProject/gem5/util/o3-pipeview.py:369-397 | a stage is drawn on a line if and only if it was reached, is not a suppressed dispatch, and its tick is on that line |
| `PipeTimeline.ColumnLocatesTick` | FinalProject/gem5/util/o3-pipeview.py:370-398 | the column of a drawn event is the cycle its tick falls in, counted from the line's label |
| `PipeTimeline.LineLength` | FinalProject/gem5/util/o3-pipeview.py:388-416 | a line's body is `width` plus the number of events that share a cycle with the one drawn before |
| `PipeTimeline.CompactWidth` | FinalProject/gem5/util/o3-pipeview.py:354-416 | in compact form, events at distinct whole cycles give a body of exactly `width` |
| `UpgradeGraph.FinalTags` | FinalProject/gem5/util/cpt_upgrader.py:150-158 | where no tag is registered in both directions, a finished migration leaves the initial tags plus all upgrades minus all downgrades, and nothing is pending for that set of tags |
| `UpgradeGraph.UnambiguousNeverFails` | FinalProject/gem5/util/cpt_upgrader.py:150-158 | removing a tag that is not there, which is an error, can only be met when a tag is registered both for upgrading and for downgrading |
| `UpgradeGraph.AbortsExactlyOnCycle` | FinalProject/gem5/util/cpt_upgrader.py:257-269 | with upgraders only and dependencies audited, migration aborts if and only if the missing tags contain a dependency cycle |
| `UpgradeGraph.CompletesExactly` | FinalProject/gem5/util/cpt_upgrader.py:255-269 | with both directions registered, but no tag in both, migration completes if and only if the pending tags can be levelled: each one above the highest pending upgrade it depends on, no higher than the removal of any tag it depends on, and everything else it depends on present from the start |
| `UpgradeGraph.AppliesEachOnce` | FinalProject/gem5/util/cpt_upgrader.py:258-269 | whatever order each ready set is iterated in, a finished migration applies every pending tag exactly once |
| `UpgradeGraph.AppliesDependenciesFirst` | FinalProject/gem5/util/cpt_upgrader.py:144-148 | with upgraders and downgraders alike, every dependency was there at the start or has been applied before its dependent; where nothing is removed it is therefore present at that moment |
| `UpgradeGraph.RoundsMakeLog` | FinalProject/gem5/util/cpt_upgrader.py:258-269 | the rounds of the worklist loop, each in any order, concatenate to a valid application log |
| `UpgradeGraph.ChainInOrder` | FinalProject/gem5/util/cpt_upgrader.py:144-148 | tags each depending on the one before are applied in chain order in any dependency-respecting log |
| `UpgradeGraph.MigrationFollowsChain` | FinalProject/gem5/util/cpt_upgrader.py:257-269 | in a finished migration a chain of missing tags is applied in chain order, whatever else is upgraded or downgraded |
| `UpgradeGraph.RemovalPromiseExactly` | FinalProject/gem5/util/cpt_upgrader.py:56-61 | the header's promise that dependents of a downgraded tag run after its removal holds in every order a run that finishes may take if and only if no pending tag depends on a tag with a downgrader |
| `UpgradeGraph.RemovedDependencyBlocks` | FinalProject/gem5/util/cpt_upgrader.py:144-148 | where no tag is registered in both directions, once a downgraded tag is gone a pending tag that depends on it makes the migration abort |
| `UpgradeGraph.RemovalPromiseFails` | FinalProject/gem5/util/cpt_upgrader.py:56-61 | one registry where the promise is kept by one order and broken by another, and where the migration aborts when the tag is absent |
| `UpgradeRegistry.Upgrader.constructor` | FinalProject/gem5/util/cpt_upgrader.py:96-142 | an upgrader records the script's tag, dependencies, version and direction |
| `UpgradeRegistry.Upgrader.Ready` | FinalProject/gem5/util/cpt_upgrader.py:144-148 | an upgrader is ready exactly when all tags it depends on are present |
| `UpgradeRegistry.Upgrader.Update` | FinalProject/gem5/util/cpt_upgrader.py:150-158 | an upgrade adds its tag, a downgrade removes it, and removing an absent tag is an error |
| `UpgradeRegistry.Registry.Register` | FinalProject/gem5/util/cpt_upgrader.py:96-142 | registering fails exactly for a script with neither method; otherwise it is added under its tag and version, replacing an earlier one |
| `UpgradeRegistry.Registry.RegisterAll` | FinalProject/gem5/util/cpt_upgrader.py:168-169 | constructing from every script succeeds exactly when each has a method, and the registries then hold the last upgrader of every tag and version |
| `UpgradeRegistry.Registry.ChainLegacy` | FinalProject/gem5/util/cpt_upgrader.py:171-175 | each legacy version from 3 up to the first gap comes to depend on the one before; fails exactly when 3 is there without 2 |
| `UpgradeRegistry.Registry.Resolve` | FinalProject/gem5/util/cpt_upgrader.py:177-192 | succeeds exactly when every declared and forward dependency is registered, and then the dependency lists are the declared ones plus the forwarded ones |
| `UpgradeRegistry.Registry.ResolvedIsAudited` | FinalProject/gem5/util/cpt_upgrader.py:177-192 | after resolving, every name in every dependency list is registered, including names appended after their list was audited |
| `UpgradeRegistry.Registry.Connect` | FinalProject/gem5/util/cpt_upgrader.py:171-192 | chaining and resolving succeeds exactly when version 3 does not come without 2 and every chained, declared and forward dependency is registered; each upgrader then depends on exactly those |
| `UpgradeRegistry.Registry.LoadAll` | FinalProject/gem5/util/cpt_upgrader.py:165-192 | loading succeeds exactly when the scripts are loadable; tags, directions, dependencies and legacy versions are then exactly what the scripts say, and every dependency is registered |
| `UpgradeRegistry.Registry.LegacyTags` | FinalProject/gem5/util/cpt_upgrader.py:221-232 | a checkpoint of legacy version v is known exactly when all versions from 2 to v are registered, and becomes exactly their tags |
| `UpgradeRegistry.Registry.ApplyReady` | FinalProject/gem5/util/cpt_upgrader.py:265-267 | applying a ready set in any order fails exactly when it downgrades an absent tag, and otherwise gives the tags of `Applied` and lists each tag once |
| `UpgradeRegistry.Registry.RunRound` | FinalProject/gem5/util/cpt_upgrader.py:258-269 | one turn of the loop is one `Round` of the graph model, or reports that nothing is ready or which downgrade cannot be applied |
| `UpgradeRegistry.Registry.Work` | FinalProject/gem5/util/cpt_upgrader.py:258-269 | the worklist loop terminates and agrees with the graph model on success, tags, log, abort and failure |
| `UpgradeRegistry.Registry.MigrateTags` | FinalProject/gem5/util/cpt_upgrader.py:255-269 | migrating a set of tags starts the loop on the missing upgrades and the present downgrades, and succeeds, aborts or fails exactly when the graph model does |
| `UpgradeRegistry.Registry.ProcessFile` | FinalProject/gem5/util/cpt_upgrader.py:221-279 | for tags that have been read, each outcome has its exact condition: no version information, a version with one missing, a downgrade of an absent tag, an abort, nothing to do because nothing is pending, or the migrated tags with their log |
| `UpgradeScripts.LegacyChain` | FinalProject/gem5/util/cpt_upgrader.py:171-175 | in a registry that the scripts say, the versions after v form a dependency chain of missing tags |
| `UpgradeScripts.StandsExactly` | FinalProject/gem5/util/cpt_upgrader.py:139-142 | a script stands for its tag exactly when no later script has that tag |
| `UpgradeScripts.DistinctTagsStand` | FinalProject/gem5/util/cpt_upgrader.py:139-142 | with distinct tags the script of every legacy version also stands for its own tag |
| `UpgradeScripts.LegacyInOrder` | FinalProject/gem5/util/cpt_upgrader.py:221-269 | for scripts with distinct tags, upgrading or downgrading, and every order of application, the remaining legacy upgraders of a checkpoint of version v are applied in increasing version order |
| `UpgradeScripts.LoadableExactly` | FinalProject/gem5/util/cpt_upgrader.py:96-192 | scripts can be loaded exactly when each has a method, version 3 does not come without 2, and every script that no later one replaces names only tags of scripts, forward or, unless it is chained, by its own declaration |
| `UpgradeScripts.FinalTagsOfScripts` | FinalProject/gem5/util/cpt_upgrader.py:257-269 | where no tag is registered in both directions, a finished migration leaves the tags of all scripts that upgrade, and of the tags the checkpoint had those that no script downgrades |
| `UpgradeScripts.DeclaredInOrder` | FinalProject/gem5/util/cpt_upgrader.py:177-192 | a missing tag that a script declares as a dependency, or that forward-depends on it, is applied before it |
| `UpgradeScripts.VersionTagsExactly` | FinalProject/gem5/util/cpt_upgrader.py:226-228 | a linear version stands for exactly the tags of the versions from 2 up to it |
| `UpgradeFile.ProcessCheckpoint` | FinalProject/gem5/util/cpt_upgrader.py:217-279 | from the text of a checkpoint to its text: the version is read before the deprecated tags and these before the tags; it fails, leaves the file alone or rewrites it exactly when it should; the first script gets the checkpoint without its version and otherwise as it was, each further one what the one before left, in the order of a valid log, and the migrated tags are listed in some order; without the section to write them to it fails |
| `UpgradeFile.UpgradeCheckpoint` | FinalProject/gem5/util/cpt_upgrader.py:165-279 | from scripts to file: it loads exactly loadable scripts, and then processes the file in a registry that is what the scripts say |
| `UpgradeFile.ReadBackExactly` | FinalProject/gem5/util/cpt_upgrader.py:235-275 | the migrated tags, written as text and read again, leave nothing to apply if and only if no tag is registered in both directions and every tag to add is a non-empty word without white space |
| `UpgradeFile.SecondRunExactly` | FinalProject/gem5/util/cpt_upgrader.py:217-279 | a rewritten file is left alone by a second run if and only if the scripts have left no version and either they have left no deprecated tags and every tag can be read back, or nothing is to be applied to the deprecated tags |
| `UpgradeFile.VersionRemoved` | FinalProject/gem5/util/cpt_upgrader.py:232 | scripts that never touch the version leave none in the rewritten file |
| `UpgradeFile.LegacyOnlyOnce` | FinalProject/gem5/util/cpt_upgrader.py:221-279 | a file rewritten from a linear version, with no deprecated tags and scripts that touch neither, is left alone by a second run exactly when the tags can be read back |
| `UpgradeFile.SecondRunRepeats` | FinalProject/gem5/util/cpt_upgrader.py:235-238 | one script and a checkpoint with the deprecated tags: the second run applies the script again |
| `SectionNames.RestoreRename` | FinalProject/gem5/util/checkpoint_aggregator.py:68-70 | removing the inserted digits after each renamed cpu gives the old name back, so digits neither create nor break an occurrence of cpu |
| `SectionNames.RenameDigits` | FinalProject/gem5/util/checkpoint_aggregator.py:59-70 | for one section name, different indices of equal width give different new names |
| `SectionNames.RenameInjective` | FinalProject/gem5/util/checkpoint_aggregator.py:59-70 | over all checkpoints and all section names with cpu, the new name determines both the checkpoint and the old name |
| `SectionNames.RenameKeepsCpu` | FinalProject/gem5/util/checkpoint_aggregator.py:68-70 | a renamed section still counts as a cpu section |
| `SectionNames.HasCpuExactly` | FinalProject/gem5/util/checkpoint_aggregator.py:68 | a section is one of a cpu exactly when its name contains cpu |
| `SectionNames.RenameFirstCpu` | FinalProject/gem5/util/checkpoint_aggregator.py:69 | the number comes right after the first cpu, and the rest of the name is treated in the same way |
| `SectionNames.NumberIs` | FinalProject/gem5/util/checkpoint_aggregator.py:59-69 | the number inserted is that of the checkpoint in decimal, as wide as that of the last checkpoint |
| `Aggregator.CopyPages` | FinalProject/gem5/util/checkpoint_aggregator.py:107-114 | the page loop appends the first `pages` pages of the memory file, or all of it when it is shorter |
| `Aggregator.AlignedIsFaithful` | FinalProject/gem5/util/checkpoint_aggregator.py:61-117 | when no short memory file precedes another, every relocated address holds the byte the checkpoint held at the old one |
| `Aggregator.RelocatedDisjoint` | FinalProject/gem5/util/checkpoint_aggregator.py:74-77 | relocated addresses of different checkpoints never coincide |
| `Aggregator.RelocationExactly` | FinalProject/gem5/util/checkpoint_aggregator.py:61-117 | with cells labelled by origin, relocation keeps every address on its own cell if and only if no short memory file precedes another's pages |
| `Aggregator.Pad` | FinalProject/gem5/util/checkpoint_aggregator.py:123-131 | the padding loop appends whole pages until the requested size is reached and counts them |
| `Aggregator.RangeIsImage` | FinalProject/gem5/util/checkpoint_aggregator.py:119-140 | the recorded range size equals the size of the image if and only if every memory file is full |
| `Aggregator.MergeConfig` | FinalProject/gem5/util/checkpoint_aggregator.py:67-94 | one checkpoint's sections merge exactly when all its numbers can be read, to the reference sections and the running maximum tick |
| `Aggregator.PlainKept` | FinalProject/gem5/util/checkpoint_aggregator.py:90-94 | of the ordinary sections those of the last checkpoint are kept as they are, options included, and no others |
| `Aggregator.MergedPlainSections` | FinalProject/gem5/util/checkpoint_aggregator.py:90-94 | an ordinary section is in the merged configuration, options included, if and only if the last checkpoint has it |
| `Aggregator.MergedStoreSection` | FinalProject/gem5/util/checkpoint_aggregator.py:138-140 | the memory section keeps its options and records the size of the padded image |
| `Aggregator.MergedSystemSection` | FinalProject/gem5/util/checkpoint_aggregator.py:97-121 | the merged configuration has exactly one section system: its pagePtr is the sum of the checkpoints' own pagePtr values, and its nextPID the number of checkpoints |
| `Aggregator.MergedImage` | FinalProject/gem5/util/checkpoint_aggregator.py:96-131 | the merged memory cell by cell: what each file contributes, its pages or all of a shorter file, stands right after what the files before it do, and whole pages of padding follow until the requested size; when every file is full, pagePtr pages are the size before padding |
| `Aggregator.MergedSectionMoves` | FinalProject/gem5/util/checkpoint_aggregator.py:67-82 | the address of a cpu section moves up by 4096 for every page of the checkpoints before, and a section of a process's files gets the number of the checkpoint as process id |
| `Aggregator.MergeNext` | FinalProject/gem5/util/checkpoint_aggregator.py:61-102 | one turn of the loop succeeds exactly on usable input and yields the reference sections, tick and page count |
| `Aggregator.MergeAll` | FinalProject/gem5/util/checkpoint_aggregator.py:61-117 | the whole loop yields the reference configuration, image, page pointer and largest tick |
| `Aggregator.Aggregate` | FinalProject/gem5/util/checkpoint_aggregator.py:44-151 | merging succeeds if and only if the checkpoints are mergeable, and then gives the reference merge |
| `Aggregator.MergedNamesDistinct` | FinalProject/gem5/util/checkpoint_aggregator.py:61-145 | the merged configuration has no two sections with the same name |
| `Aggregator.MergedAddressKeepsMeaning` | FinalProject/gem5/util/checkpoint_aggregator.py:61-117 | end to end: the rewritten paddr under the renamed section points at the same byte in the merged image |
| `Aggregator.MergedSectionKeepsOptions` | FinalProject/gem5/util/checkpoint_aggregator.py:67-82 | every cpu section of every checkpoint is in the merged configuration under its new name, and no option but the address and the process id is lost, added or changed |
| `Aggregator.MergedTickIsLargest` | FinalProject/gem5/util/checkpoint_aggregator.py:86-89 | the last section written holds a tick that no checkpoint exceeds and that, unless zero, one of them had |
| `Framing.EncodeVarint32` | FinalProject/gem5/util/protolib.py:147-159 | appends the base-128 encoding of the value to the file |
| `Framing.EncodeMeans` | FinalProject/gem5/util/protolib.py:147-159 | the encoding is the base 128 varint: seven bits of each byte make up the number, lowest first, all bytes but the last have the top bit set, and there are no more than needed |
| `Framing.EncodeMessage` | FinalProject/gem5/util/protolib.py:162-168 | appends the length and the bytes of a message |
| `Framing.DecodeVarint32` | FinalProject/gem5/util/protolib.py:100-128 | reads the varint at the position, never more than ten bytes, and stops just after it, at the end of the file, or after the tenth byte |
| `Framing.ReadMessage` | FinalProject/gem5/util/protolib.py:131-144 | reads one message as the pure decoder does, and stops where it says; end of file, zero and overlong lengths all mean no message |
| `Framing.DecodeLength` | FinalProject/gem5/util/protolib.py:100-128 | an encoded length below 2^63 decodes to its low 32 bits, one from there to 2^70 to its low 32 bits minus 2^32, without touching later bytes, and any longer one is refused |
| `Framing.RoundTripExactly` | FinalProject/gem5/util/protolib.py:100-168 | writing a sequence of messages and decoding until there is none returns it if and only if every length is positive and below 2^32, except that the last may also be from 2^63 to 2^70 |
| `Framing.OrdinaryMessages` | FinalProject/gem5/util/protolib.py:100-168 | in particular for every sequence of non-empty messages shorter than 2^32 bytes |
| `DepTrace.PrintRecord` | FinalProject/gem5/util/decode_inst_dep_trace.py:164-215 | printing field by field gives the line of the record |
| `DepTrace.PrintTrace` | FinalProject/gem5/util/decode_inst_dep_trace.py:164-215 | printing a trace gives the lines of its records in order |
| `DepTrace.ComputationSpelled` | FinalProject/gem5/util/decode_inst_dep_trace.py:164-215 | the line of a record without memory fields, spelled out |
| `DepTrace.MemorySpelled` | FinalProject/gem5/util/decode_inst_dep_trace.py:164-215 | the line of a record with memory fields, spelled out |
| `DepTrace.ParseLine` | FinalProject/gem5/util/encode_inst_dep_trace.py:157-208 | parsing field by field agrees with the reference parser, errors included |
| `DepTrace.ParseTrace` | FinalProject/gem5/util/encode_inst_dep_trace.py:157-208 | reading lines stops at the first bad one and otherwise returns all records |
| `DepTrace.TwoColons` | FinalProject/gem5/util/encode_inst_dep_trace.py:158 | a line is refused for its form exactly when it does not have two colons |
| `DepTrace.ExtraFieldsIgnored` | FinalProject/gem5/util/encode_inst_dep_trace.py:159-189 | fields after the last one needed are ignored |
| `DepTrace.EmptyItemsIgnored` | FinalProject/gem5/util/encode_inst_dep_trace.py:191-206 | empty items among the dependencies are ignored, wherever they stand |
| `DepTrace.RoundTripExactly` | FinalProject/gem5/util/encode_inst_dep_trace.py:157-208 | printing and parsing a record gives it back, defaults filled in, if and only if it is expressible: a valid type, and memory fields exactly for loads and stores |
| `DepTrace.TraceRoundTripExactly` | FinalProject/gem5/util/encode_inst_dep_trace.py:157-208 | the same for whole traces: if and only if every record is expressible |
| `TraceFile.DecodeTrace` | FinalProject/gem5/util/decode_inst_dep_trace.py:133-215 | the whole decoder: a file is refused exactly when it does not start with the characters gem5; then header, and record after record into text, as the pure decoder says |
| `TraceFile.PrintRecords` | FinalProject/gem5/util/decode_inst_dep_trace.py:163-215 | the loop over messages prints every record until there is no message, and fails at one that cannot be read |
| `TraceFile.EncodeTrace` | FinalProject/gem5/util/encode_inst_dep_trace.py:136-209 | the whole encoder: the characters gem5, a header, then a framed record for every line, up to the first that cannot be read |
| `TraceFile.FramesInjective` | FinalProject/gem5/util/protolib.py:147-168 | different sequences of messages, of whatever lengths, never give the same bytes |
| `TraceFile.ConvertedBackExactly` | FinalProject/gem5/util/encode_inst_dep_trace.py:136-209 | for any faithful serialization: a file of records decodes to their text, and encoding that text gives the file of the same records, defaults filled in, if and only if every record is expressible |
| `TraceFile.TextComesBack` | FinalProject/gem5/util/decode_inst_dep_trace.py:133-215 | the text of expressible records, encoded and decoded again, is the same text |
| `PortBinder.PassIsSorted` | FinalProject/gem5/configs/example/read_config.py:381 | the pass visits all connections, once each, in order of the object they start from, then its port name, then the index, then the port they lead to in the same way |
| `PortBinder.MakeCounters` | FinalProject/gem5/configs/example/read_config.py:354-359 | every port a connection starts from gets a counter at zero |
| `PortBinder.MakeConnections` | FinalProject/gem5/configs/example/read_config.py:380-390 | the loop agrees with the reference scan, including the error for an unknown port |
| `PortBinder.BindPorts` | FinalProject/gem5/configs/example/read_config.py:349-395 | binding returns what the sorted scan made when that is half of the list, and fails otherwise |
| `PortBinder.ScanCounts` | FinalProject/gem5/configs/example/read_config.py:361-390 | whatever the order of the pass, each port's connections are made in index order 0, 1, 2, ... without gaps |
| `PortBinder.ScanMatches` | FinalProject/gem5/configs/example/read_config.py:380-390 | what is made is taken from the list and uses no port twice |
| `PortBinder.BindingExactly` | FinalProject/gem5/configs/example/read_config.py:349-395 | for a symmetric list the pass meets no unknown port, and the count check passes if and only if every connection is made in exactly one direction |
| `PortBinder.SortedPassIsNotComplete` | FinalProject/gem5/configs/example/read_config.py:370-373 | the comment that sorting makes one direction of each pair bindable is false: a symmetric list that can be bound and is rejected |
| `PortBinder.NeverBehind` | FinalProject/gem5/configs/example/read_config.py:380-390 | making connections as early as possible never falls behind any other in-turn choice along the same list |
| `PortBinder.SucceedsExactly` | FinalProject/gem5/configs/example/read_config.py:370-395 | the pass binds everything if and only if some choice of one direction per connection keeps every port's indices in turn along the sorted list |
| `SimPoint.Analyse` | FinalProject/gem5/configs/common/Simulation.py:332-365 | each chosen interval is placed with its warm-up, and the result is stably sorted by ascending start |
| `SimPoint.NameRoundTrip` | FinalProject/gem5/configs/common/Simulation.py:404-417 | parsing a checkpoint name with the restore pattern gives exactly what was put in, for all numbers |
| `SimPoint.NameSpelled` | FinalProject/gem5/configs/common/Simulation.py:404-417 | the name of a checkpoint, spelled out |
| `SimPoint.TailIgnored` | FinalProject/gem5/configs/common/Simulation.py:162-171 | a directory name with anything but a digit after a checkpoint's name is read as that checkpoint |
| `SimPoint.SimulateOn` | FinalProject/gem5/configs/common/Simulation.py:394-402 | simulation goes on past the benchmark's own checkpoints to the first other exit |
| `SimPoint.TakeCheckpoints` | FinalProject/gem5/configs/common/Simulation.py:382-430 | the checkpoints written are a prefix of the names in order, as long as starts are found |
| `SimPoint.NamesOfFirst` | FinalProject/gem5/configs/common/Simulation.py:382-430 | the names a run that ended early has written are those of its first points |
| `SimPoint.AllTakenExactly` | FinalProject/gem5/configs/common/Simulation.py:382-430 | all checkpoints are taken if and only if the simulator finds a start as often as the start changes, however the benchmark's exits are interleaved |
| `SimPoint.TakenExactly` | FinalProject/gem5/configs/common/Simulation.py:382-430 | at least m checkpoints are taken exactly when the simulator finds a start as often as the start changes among the first m |
| `SimPoint.GatherCheckpoints` | FinalProject/gem5/configs/common/Simulation.py:162-171 | the directory entries kept are exactly those that match the pattern |
| `SimPoint.FindCheckpoint` | FinalProject/gem5/configs/common/Simulation.py:159-191 | the checkpoint restored is the one at that place in the sorted names; too large a number is an error, and zero or less counts from the end |
| `SimPoint.NamesSortedExactly` | FinalProject/gem5/configs/common/Simulation.py:172 | names in order of index are in alphabetical order if and only if there are at most 100 |
| `SimPoint.RestoreExactly` | FinalProject/gem5/configs/common/Simulation.py:159-191 | for any listing order, number N restores index N-1 for every N if and only if there are at most 100 checkpoints |
| `SimPoint.RestoredWindow` | FinalProject/gem5/configs/common/Simulation.py:351-358 | end to end, for all intervals, lengths and warm-ups and for a run that took any number of checkpoints up to 100: the two stops of a restored checkpoint are at I*L and (I+1)*L of the whole run, and it warms up for the length asked for, or for all of I*L when that is shorter |
| `SimPoint.EveryChoiceRestored` | FinalProject/gem5/configs/common/Simulation.py:361-365 | every chosen interval is restored by some number, with the stops at I*L and (I+1)*L and the warm-up asked for as far as there is room |
| `ScriptCheckpoints.Simulator.Simulate` | FinalProject/gem5/configs/common/Simulation.py:252-253 | one call advances to the deadline or to the first event due before it; a negative number of ticks is refused |
| `ScriptCheckpoints.Simulator.RunTo` | FinalProject/gem5/configs/common/Simulation.py:252-256 | the first deadline is reached ignoring the benchmark's checkpoints |
| `ScriptCheckpoints.Simulator.RunTurn` | FinalProject/gem5/configs/common/Simulation.py:274-281 | one turn of the main loop, with the cause the loop condition looks at and the cause it ends with |
| `ScriptCheckpoints.Simulator.TakeCheckpoints` | FinalProject/gem5/configs/common/Simulation.py:246-283 | the whole procedure in place agrees with the reference run, in state and cause |
| `ScriptCheckpoints.TakenAt` | FinalProject/gem5/configs/common/Simulation.py:246-283 | for all arguments and every interleaving of exits, checkpoint k is taken at when + k*period, and there are at most max(1, max_checkpoints) |
| `ScriptCheckpoints.TicksAt` | FinalProject/gem5/configs/common/Simulation.py:246-283 | the k-th tick of such a series is when + k*period |
| `ScriptCheckpoints.NeverPastExactly` | FinalProject/gem5/configs/common/Simulation.py:262-278 | the simulator is never asked to pass maxtick if and only if the first checkpoint is not past it (or lies in the past and is refused) |
| `ScriptCheckpoints.CompleteExactly` | FinalProject/gem5/configs/common/Simulation.py:262-281 | all checkpoints that fit are taken if and only if nothing happens between the first deadline and the last but one, and only benchmark checkpoints after that |
| `ScriptCheckpoints.EndsAfterAll` | FinalProject/gem5/configs/common/Simulation.py:262-283 | undisturbed up to the last checkpoint: with the allowed number taken the run ends at that tick; with no more room it ends at maxtick, or at the first event due before it, and the cause returned is the one of that end |
| `ScriptCheckpoints.EndsDuring` | FinalProject/gem5/configs/common/Simulation.py:274-281 | an event in the period before checkpoint k: with nothing but benchmark checkpoints, checkpoint k is taken and ends the run at its tick; otherwise the run ends at the first other event, with its cause and without checkpoint k |
| `ScriptCheckpoints.EndsBeforeFirst` | FinalProject/gem5/configs/common/Simulation.py:252-260 | short of the first deadline the run ends at the first event that is not the benchmark's, without a checkpoint |
| `ScriptCheckpoints.EndsRefused` | FinalProject/gem5/configs/common/Simulation.py:252-272 | a first deadline in the past is refused, and so is going on to a maxtick in the past |
| `ScriptCheckpoints.BenchmarkCutsSeries` | FinalProject/gem5/configs/common/Simulation.py:274-281 | concrete run: one checkpoint by the benchmark ends the series early, because the cause is not refreshed |
| `CacheTree.NumTesters` | FinalProject/gem5/configs/example/memtest.py:150-161 | the two loops compute the testers of each depth times the fan-out to that depth |
| `CacheTree.Check` | FinalProject/gem5/configs/example/memtest.py:191-217 | a specification is accepted if and only if it has a level of caches, one more number of testers than of caches, testers at the top, no negative number of testers, a cache or more at each level and at most 64 testers, and is then passed on unchanged |
| `CacheTree.System.constructor` | FinalProject/gem5/configs/example/memtest.py:280 | one counter per level, all zero |
| `CacheTree.System.MakeCacheLevel` | FinalProject/gem5/configs/example/memtest.py:285-347 | the recursion in place agrees with the pure build, never indexes out of range, and the missing-cache error cannot happen |
| `CacheTree.SumIsRecursive` | FinalProject/gem5/configs/example/memtest.py:150-161 | counting depth by depth and counting subtree by subtree give the same total |
| `CacheTree.BuildsEachOnce` | FinalProject/gem5/configs/example/memtest.py:285-351 | for every depth, exactly the indices below the fan-out occur, each once, and the counter ends at the fan-out |
| `CacheTree.BuildsLinks` | FinalProject/gem5/configs/example/memtest.py:313-332 | subsystem y hangs off cache y mod c of subsystem y div c one depth below, with that depth's testers and cache kind |
| `CacheTree.LinksDistinct` | FinalProject/gem5/configs/example/memtest.py:322-329 | two subsystems that hang off the same cache are the same one |
| `CacheTree.BuildsTesters` | FinalProject/gem5/configs/example/memtest.py:285-351 | the build makes exactly numtesters(cachespec, testerspec) testers |
| `CacheTree.MakePrototypes` | FinalProject/gem5/configs/example/memtest.py:236-260 | one prototype per depth, the last the first-level cache, each other the next one scaled by its fan-out, ten times slower and of the opposite inclusivity |
| `CacheTree.MakeSystem` | FinalProject/gem5/configs/example/memtest.py:236-351 | from a checked specification to the finished tree of the pure build |
| `CopyrightDates.DateStr` | FinalProject/gem5/util/find_copyrights.py:195-220 | any listing of a set prints as its runs joined by commas; the empty set is an error |
| `CopyrightDates.MaximalRuns` | FinalProject/gem5/util/find_copyrights.py:195-220 | the printed runs are in increasing order, separated by gaps, and cover exactly the set: they are the maximal runs |
| `CopyrightDates.DateSpelled` | FinalProject/gem5/util/find_copyrights.py:195-220 | the text of a set is its maximal runs in order with commas between them, each its only year or its first and last year with a dash between |
| `CopyrightDates.RangeSpelled` | FinalProject/gem5/util/find_copyrights.py:112-124 | a part that starts with two four-digit years around a dash, with any white space, is read as all years between them |
| `CopyrightDates.PartYears` | FinalProject/gem5/util/find_copyrights.py:119-130 | one part adds its range, its number, or nothing |
| `CopyrightDates.ProcessDates` | FinalProject/gem5/util/find_copyrights.py:115-132 | reading a text gives the union of what its comma-separated parts mean |
| `CopyrightDates.RangeRead` | FinalProject/gem5/util/find_copyrights.py:112-124 | a printed range with a four-digit start reads back as itself, or cut short when its end is longer |
| `CopyrightDates.NothingRead` | FinalProject/gem5/util/find_copyrights.py:112-130 | a printed range whose start is not four digits long is lost |
| `CopyrightDates.RoundTripExactly` | FinalProject/gem5/util/find_copyrights.py:112-220 | reading back a printed set gives it again if and only if no two consecutive members reach outside 1000 to 9999 |
| `LogRoll.DumpLines` | FinalProject/gem5/util/logroll.py:63-67 | prints the ring from its index round to its index |
| `LogRoll.Fill` | FinalProject/gem5/util/logroll.py:83-89 | the first loop keeps everything seen, until the ring is full or the input ends |
| `LogRoll.Replace` | FinalProject/gem5/util/logroll.py:91-92 | overwriting one line keeps the ring equal to the most recent lines |
| `LogRoll.Roll` | FinalProject/gem5/util/logroll.py:75-94 | at every iteration boundary and at the end, a dump shows exactly the last min(n, target) lines in order; a target below one keeps all |
| `LogRoll.ViewsAt` | FinalProject/gem5/util/logroll.py:75-94 | the dump after k lines is of the first k lines only |
| `Ranges.IsPow2Exactly` | FinalProject/gem5/configs/dram/lat_mem_rd.py:157-158 | the bit test holds of an integer of any sign if and only if it is a power of two |
| `Ranges.TestsPow2` | FinalProject/gem5/configs/dram/lat_mem_rd.py:157-158 | evaluating the test decides whether a number is a power of two |
| `Ranges.MakeRanges` | FinalProject/gem5/configs/dram/lat_mem_rd.py:161-174 | the loop ends for every maximum, with ranges given in closed form and the last the first to reach it |
| `Ranges.NextRange` | FinalProject/gem5/configs/dram/lat_mem_rd.py:170-174 | each range is the one before plus the step, and the step doubles exactly at powers of two |
| `Ranges.StepIsQuarter` | FinalProject/gem5/configs/dram/lat_mem_rd.py:168-174 | the step is a quarter of the largest power of two not above the last range |
| `Ranges.PowersHit` | FinalProject/gem5/configs/dram/lat_mem_rd.py:161-174 | every power of two from 4096 to the last range is hit |

## Left out

- Files, compression, command lines, signals and messages: inputs and outputs are sequences.
- Protocol-buffer serialization: messages are byte sequences, and a record's serialization is any function with a reader that undoes it; the contents of the header message.
- The C++ simulator: it is a script of events, in any order, that the model is proved against.
- Colours, headers and timestamps of the pipeline viewer, and the text after a line's label: program counter, disassembly and sequence number.
- Missing stage lines of the first instruction: the viewer fails there with a lookup error, and the model takes the tick to be 0; a later instruction silently keeps the tick of the one before, as the model does too.
- UpgradeGraph.AbortsExactlyOnCycle: for upgraders only, because with downgraders a run can also abort without a cycle; CompletesExactly has the condition for both directions.
- The contents of the upgrade scripts: each is its tag, dependencies, version and direction, and any function on the checkpoint.
- Errors raised by the configuration parser on the checkpoint, such as a version that is not a number or a percent sign in a tag.
- Duplicate legacy versions: a later script replaces an earlier one, as in the source, and nothing more is claimed of the replaced one.
- Defaults, interpolation and option order of the configuration parser in `checkpoint_aggregator.py`.
- `PortConnection.from_string` and the gathering of ports from objects: ports are given.
- The final attribute assignments of `bind_ports`.
- Signs, underscores and surrounding spaces that Python's `int` accepts in trace fields; underscores and non-ASCII digits in years.
- Absence of the sequence number or the computation delay in dependency records: the format makes them optional, but the text always prints them.
- Floating point: the weight of a SimPoint is its formatted text, which for finite numbers always fits the restore pattern.
- The error exits of the analysis-file reader for malformed lines, and the `at_instruction` and plain branches of restoring and taking checkpoints.
- The random generation of cache trees, and the wiring of ports other than which cache a subsystem hangs off.
- PipeQueue.PrintQueue.PrintItem: prints the instruction itself; its timeline is in PipeTimeline.
- PipeTrace.ViewerSortsThenFilters: one way only, because a trace that breaks the bounds may still happen to come out sorted; OrderGuaranteedExactly and DriftToleratedExactly show that neither bound can be relaxed.
- Signals that arrive in the middle of an iteration of the rolling log.
