# Punchboot in Dafny

A Dafny model of the parts of Punchboot whose correctness is hard to see from the code: the crash-tolerant A/B boot
state, the Kconfig engine behind the build, the BPAK image container and its loader, the host/device protocol, and
the DER signature decoder. `dafny verify dfyconfig.toml` checks all of it.

## What is proved

**Boot state** (`src/boot/ab_state.c`, `src/lib/crc.c`). The two stored copies, the magic and the checksum are modelled
down to the bytes of the blob. `Crc` proves the table-driven CRC equal to a bit-serial shift register, linear and
injective, so that `StateBlob.BurstRejected` holds. `AbState` is the code as a class over two partitions in which every
write may be cut or fail at any of its points; `AbRuns` runs it, as a transition function and, equal to that, as calls
on the class (`Execute`). An unverified system is returned at most as often as it had attempts, over every run with
power cuts, write errors and stale backups (`AttemptBudget`, `ExecuteWithinBudget`). From two good copies, any run with
power cuts loads a state some commit intended, never one older than the last completed commit, and never the defaults
(`RecoveryIsDurable`, `ExecuteAndRecover`). Two statements that do not hold in general have their exact condition: a
single cut commit is survived (`CutSurvived`) or atomic (`CutIsAtomic`) if and only if the backup is fit for it; and a
reported write error, unlike a power cut, can lead to the loss of the state (`WriteErrorCanLoseState`, a concrete run).
`AbShapes` gives the exact sequence of boots in both modes, says exactly when the two systems are treated alike, and
what a rollback leaves in the error word. After an activation that completed, every run until the next one, with power
cuts anywhere, hands out the activated system and no other, and after that of the null partition nothing
(`ActivationHolds`).

**Kconfig engine** (`scripts/kconfiglib.py`). `KValues` holds the value rules of symbols and choices, each giving its
value together with what it read. `KReads` proves that a rule depends on nothing else, `KFixpoint` that along any order
of the attributes the rules have one solution, the same for every order (`SolutionIsUnique`, `RanksAgree`), and that
pruned invalidation leaves a sound cache. `KCache` runs the caching engine, with its short-circuits, its invalidation
and choices, and proves that over every session it answers what an engine without a cache answers (`Session`).

`KMeaning` says what these values are, without the rules that compute them: the laws of expressions; a choice at y with
a visible symbol has exactly one symbol at y, which is the user's if that is visible, else the first visible default in
effect, else the first visible one; a symbol is at least what selects it and, where its dependencies are met and the
user does not say otherwise, what implies it; a number lies in its active range; and what is left out of a file and not
asked for is n. `KAssign` says what setting a value does: the values named as assignable are exactly those that setting
makes the value, unless a symbol visible and selected at m is implied at y, in which case m is named and y is all it
can be (`AssignableMeans`), and in a choice under a condition of its own (`ChoiceAssignableMeans`); `KExamples` has an
input for each case.

`KLoop` is the loop search over symbols and choices. It reports nothing but loops, and passes everything that has none;
but with choices it is not exact: it can pass a loop that comes into a choice by one symbol and leaves it by another
(`LoopMissed`). The dependents have no loop if and only if the search passes and no loop hops in this way (`CheckAll`).
`KOrder` proves what a configuration without loops is good for: its attributes, those of choices included, can be put in
the order the cache theorem needs if and only if the modules symbol does not depend on a tristate (`OrderExists`), which
the search does not look at either. `CheckedSession` puts search, order and cache together under these two conditions,
and `KExamples` has, for each, a configuration that violates it, passes the search, and has no values at all that
satisfy its rules.

`KRoundTrip`, `KText` and `KConfigFile` are about writing `.config` and loading it elsewhere, for configurations without
choices and down to the characters of the file, with its header, its menu and comment notes and its ends of menus
(`SaveAndLoad`). Every value comes back if and only if no symbol visible at m is y by a default alone, given what can be
told before writing: the header ends in a newline, and no line other than a symbol's own has the last word on it with
another value (`RestoresIfQuiet` says that this is exactly when the file restores the assignments). A comment can unset
a symbol, and a header without a newline swallows the first line (`CommentUndoesValue`, `HeaderSwallows`). What any line
at all assigns, whether or not the writer writes such lines, is in `LevelLineSays`, `NumberLineSays` and `TextLineSays`.

`KParse` proves that parsing a printed expression gives its right-associated form, which means and prints the same.
`KMenu` carries out implicit submenus, flattening and `if` removal on next, list and parent links, and proves that
walking the result visits the parsed nodes other than `if`, in order, and that each ends up below the nearest node above
it that has a prompt or is a choice, once every symbol has taken the nodes that depend on it (`FinalizeMenu`).

**Images** (`src/lib/bpak.c`, `src/boot/image_helpers.c`, `src/boot/boot.c`). `Bpak` proves that the metadata table is a
faithful store over runs of adds and deletes (`Replay`), with the exact conditions under which the code fails to be
one: a deletion damages exactly the payloads that reach beyond the freed size with a non-zero byte, a deletion from a
full table wipes the first part header instead of the last slot, and an add that does not fit ruins the table.
`Machine` is memory, block devices and the asynchronous hash driver, which may hash its outstanding range at any pace
while the program goes on. On top of it `Loader` proves the load loop and the boot path with the authentication of the
header, down to which bytes are signed and how many of a digest are compared, and `PartStore` the double-buffered
verification. Two partitions that boot with the same header hold the same payload, or two with the same digest
(`SamePayloadOrCollision`).

**Protocol** (`src/cm/cm_main.c`, `tools/punchboot`). `PartStore.WriteThenVerify`: what the host has written verifies.
`RamBoot` is the two sides of a RAM boot as two programs with bounded channels, of which the device learns the sizes of
the parts from the header it is sent; every schedule ends, in agreement (`Agreement`), and no part is taken after a
header was found wrong (`NoPartAfterRefusal`). `Gate` proves what a locked device does before an authenticate succeeds,
and which commands it answers.

**DER** (`src/lib/der_helpers.c`). `Der` proves that decoding inverts encoding, whatever follows in memory.

Where code and documentation disagree, the code is modelled: `include/bpak/bpak.h` says that deleting removes an entry
and that an add fails when the array is full, and says nothing of the cases above; it also says that parts are padded
to 128 bytes where the code checks 512.

## Model

| member | source | states |
|---|---|---|
| Crc.EntryIsEightShifts | src/lib/crc.c:91-129 | each of the 256 table words is the reflected polynomial shifted eight times from its index |
| Crc.LookupIsByteStep | src/lib/crc.c:131-139 | one table lookup advances the register as eight bit-serial steps do |
| Crc.Crc32 | src/lib/crc.c:131-139 | the loop computes the bit-serial CRC from every start value over every buffer |
| Crc.SerialConcat | src/lib/crc.c:131-139 | the CRC of a concatenation continues from the CRC of its front |
| Crc.SerialLinear | src/lib/crc.c:131-139 | the CRC is linear over xor of registers and of equally long inputs |
| Crc.SerialInjective | src/lib/crc.c:131-139 | feeding the same bytes never merges two register values |
| Crc.FourBytesAsWord | src/lib/crc.c:131-139 | feeding four bytes is xoring them in as a word and feeding zeros |
| Crc.BurstIsSeen | src/lib/crc.c:131-139 | two buffers that differ only inside four consecutive bytes have different CRCs |
| StateBlob.DecodeEncode | include/boot/pb_state_blob.h:22-46 | reading the stored bytes of a state gives the state back |
| StateBlob.EncodeDecode | include/boot/pb_state_blob.h:22-46 | every 512-byte blob is the encoding of what it decodes to, so no byte escapes the fields |
| StateBlob.Layout | include/boot/pb_state_blob.h:22-46 | the byte offset of every field of the stored state, little-endian |
| StateBlob.ClearedChecksum | src/boot/ab_state.c:24-45 | cleared memory has a matching checksum and is refused for its magic alone |
| StateBlob.Seal | src/boot/ab_state.c:54-61 | a sealed state with the right magic is accepted, and only its checksum differs |
| StateBlob.SealOfUnsealed | src/boot/ab_state.c:24-60 | an accepted state is the one seal of its contents |
| StateBlob.Validate | src/boot/ab_state.c:24-45 | accepts exactly the states with the magic and a matching checksum, and leaves the checksum field cleared |
| StateBlob.BurstRejected | src/boot/ab_state.c:24-60 | a change to an accepted blob confined to four consecutive bytes before the checksum, or to the checksum, is rejected |
| AbState.AbBoot.Commit | src/boot/ab_state.c:54-76 | seals the state and writes primary then backup; a fault at any point leaves exactly the described pair of copies |
| AbState.AbBoot.Init | src/boot/ab_state.c:78-154 | does nothing but mark the found ones bootable if the partition of a system is missing; otherwise loads the primary if readable and valid, else the backup, else defaults, and repairs the copies unless both were valid |
| AbState.FirstValidCopy | src/boot/ab_state.c:47-154 | whatever the copies hold, the primary is loaded if valid, else the backup if valid, else a state with nothing enabled, from which nothing boots |
| AbState.AbBoot.Get | src/boot/ab_state.c:156-240 | takes the decision given symmetrically for both systems, and stores it exactly when it changes the state |
| AbState.AbBoot.SetBootPartition | src/boot/ab_state.c:242-264 | stores the state with only the activated system enabled and verified and no error, whose consequences are AbRuns.ActivationHolds; an unknown partition is refused without a write, but with enable, verified and error cleared in memory |
| AbState.AbBoot.WriteBoardReg | src/boot/ab_state.c:299-305 | stores the state with one board register changed; an index past the registers changes nothing |
| AbState.RegisterReadBack | src/boot/ab_state.c:291-305 | a written register is read back, the others and every other byte of the stored state are unchanged, and registers count down from the end |
| AbRuns.DecideWithin | src/boot/ab_state.c:165-240 | in normal mode returning an unverified system uses up one of its attempts, which is then stored |
| AbRuns.RecoveredWithin | src/boot/ab_state.c:113-154 | whatever copy initialisation falls back on, it allows no attempt already used |
| AbRuns.CommitKeepsBudget | src/boot/ab_state.c:54-76 | no fault inside a commit leaves a valid copy with more attempts than are left |
| AbRuns.StepKeepsBudget | src/boot/ab_state.c:54-240 | no call other than an activation, faulty or not, gives an attempt back |
| AbRuns.RunKeepsBudget | src/boot/ab_state.c:54-240 | and hence no run does |
| AbRuns.AttemptBudget | src/boot/ab_state.c:54-240 | over every run in normal mode without activation, with power cuts and write errors anywhere, a system whose valid copies allow n attempts is returned at most n times |
| AbRuns.StepKeepsRecoverable | src/boot/ab_state.c:54-154 | after any call, complete or cut, some copy is valid and holds an intended state |
| AbRuns.RunKeepsRecoverable | src/boot/ab_state.c:54-154 | and hence after any run with power cuts |
| AbRuns.RecoveryIsDurable | src/boot/ab_state.c:24-154 | from two equal valid copies, every run with power cuts leads to a state some commit intended, no older than the last completed commit, and never to defaults |
| AbRuns.CutSurvived | src/boot/ab_state.c:54-76 | one commit leaves a valid copy at every cut if and only if the backup is valid or the primary already holds the new state |
| AbRuns.CutIsAtomic | src/boot/ab_state.c:54-154 | one cut commit and initialisation give wholly the old or wholly the new state if and only if the fallback copy is one of the two |
| AbRuns.Perform | src/boot/ab_state.c:54-305 | one call of the class, faulty or not, changes its copies and its state as the step of a run does, and returns the same system |
| AbRuns.Execute | src/boot/ab_state.c:54-305 | and so does a whole run of calls |
| AbRuns.ExecuteWithinBudget | src/boot/ab_state.c:54-240 | executing any run in normal mode without activation returns a system at most as often as its valid copies allow |
| AbRuns.ExecuteAndRecover | src/boot/ab_state.c:24-154 | executing any run with power cuts and initialising again loads a state some commit intended, no older than the last completed commit |
| AbRuns.RefusedActivationDisables | src/boot/ab_state.c:242-305 | a refused activation followed by any register write stores a state with no system enabled, after which nothing boots |
| AbRuns.GetHolds | src/boot/ab_state.c:156-240 | with a system activated in memory and in every valid copy, a get hands out that system, or nothing for the null partition, and changes nothing |
| AbRuns.ActivationHolds | src/boot/ab_state.c:54-305 | after a completed activation every run without another, in either mode and with power cuts anywhere, returns the activated system at every get and no other, nothing for the null partition, and no get stores anything |
| AbRuns.MagicInMemory | src/boot/ab_state.c:78-154 | whatever the copies hold, the state worked on has the right magic, over every run with any faults |
| AbRuns.WriteErrorCanLoseState | src/boot/ab_state.c:54-154 | a concrete run in which a reported write error and a later cut reinstall the defaults |
| AbShapes.NormalShape | src/boot/ab_state.c:165-240 | normal mode boots the system on trial once per attempt, then the other one forever if verified, else refuses forever with an unchanged state |
| AbShapes.SpeculativeShape | src/boot/ab_state.c:165-240 | speculative mode with neither system verified never fails and alternates in pairs after the attempts |
| AbShapes.DecisionMirrors | src/boot/ab_state.c:156-240 | swapping the systems swaps the decision if and only if not both are enabled or the call refuses both |
| AbShapes.RunsMirror | src/boot/ab_state.c:156-240 | whole runs mirror when not both systems are enabled |
| AbShapes.RollbackBlames | src/boot/ab_state.c:165-240 | a rollback enables the other system alone and records in the error word the system given up, whose attempts were used up; in normal mode it takes that the other one is verified |
| AbShapes.OthersBlameNone | src/boot/ab_state.c:165-240 | no other decision touches the error word or what is enabled |
| KReads.ComputeSame | scripts/kconfiglib.py:4356-4603 | a value rule gives the same value and reads the same wherever its reads agree: short-circuits included, it depends on nothing else |
| KReads.ComputeBound | scripts/kconfiglib.py:4356-4603 | what a rule reads lies within what its properties mention |
| KFixpoint.FullSolves | scripts/kconfiglib.py:4356-4603 | computing bottom-up along an order of attributes gives values that solve the rules |
| KFixpoint.SolutionIsUnique | scripts/kconfiglib.py:4356-4603 | and every set of values that solves them is this one |
| KFixpoint.RanksAgree | scripts/kconfiglib.py:4356-4603 | so that the value of an attribute is the same along any two orders |
| KFixpoint.ReadsCovered | scripts/kconfiglib.py:3508-3567 | every read is of the item itself, of an item it is registered as dependent on, of a constant or of the modules symbol |
| KFixpoint.CacheOkAdds | scripts/kconfiglib.py:4507-4603 | storing a computed value keeps the cache sound and its visibility flag meaningful |
| KFixpoint.PrunedOk | scripts/kconfiglib.py:4963-4992 | what pruned invalidation leaves in the cache still rests on cached values only |
| KFixpoint.InvisibleUserUnread | scripts/kconfiglib.py:4994-5003 | no rule reads the user value of a symbol that is not visible |
| KFixpoint.PromptlessUnaffected | scripts/kconfiglib.py:4994-5003 | hence skipping invalidation for symbols without a prompt is safe |
| KFixpoint.ValueUnaffected | scripts/kconfiglib.py:4963-4992 | a value that survives pruning is the same under the new assignments |
| KFixpoint.UsersChange | scripts/kconfiglib.py:4963-4992 | a cache none of whose readers saw the change is sound for the new assignments |
| KFixpoint.PrunedUnaffected | scripts/kconfiglib.py:4963-4992 | after pruned invalidation no surviving value read what changed |
| KCache.BuildDep | scripts/kconfiglib.py:3508-3567 | the dependents table lists exactly the defined items whose properties mention an item |
| KCache.Engine.constructor | scripts/kconfiglib.py:3508-3567 | starts with an empty, sound cache and the dependents table |
| KCache.Engine.Visibility | scripts/kconfiglib.py:4597-4603 | gives and caches the true visibility, and the cache stays sound |
| KCache.Engine.VisibilityRule | scripts/kconfiglib.py:6399-6429 | computes the visibility rule by asking for other cached attributes |
| KCache.Engine.ExprValue | scripts/kconfiglib.py:6087-6148 | evaluates an expression with short-circuits to its true value, of which the laws are in KMeaning |
| KCache.Engine.TriValueOf | scripts/kconfiglib.py:4507-4585 | gives and caches the true tristate value of a symbol |
| KCache.Engine.StrValueOf | scripts/kconfiglib.py:4356-4504 | gives and caches the true string value of a symbol |
| KCache.Engine.AssignableOf | scripts/kconfiglib.py:4588-4595 | gives and caches the true assignable values of a symbol or choice |
| KCache.Engine.ChoiceMode | scripts/kconfiglib.py:5292-5309 | gives the true mode of a choice |
| KCache.Engine.TypeInEffect | scripts/kconfiglib.py:4344-4353 | gives the type in effect, which is bool for tristates without modules |
| KCache.Engine.SelectionOf | scripts/kconfiglib.py:5338-5344 | gives and caches the true selection of a choice, which KMeaning.SelectionMeans describes |
| KCache.Engine.Invalidate | scripts/kconfiglib.py:4956-4961 | forgets exactly the attributes of one item |
| KCache.Engine.InvalidateAll | scripts/kconfiglib.py:3583-3591 | forgets exactly the attributes of all defined items |
| KCache.Engine.RecInvalidate | scripts/kconfiglib.py:4963-4992 | terminates, and what survives has no cached item on any dependency path from the root |
| KCache.Engine.RecInvalidateIfHasPrompt | scripts/kconfiglib.py:4994-5008 | makes the cache sound for a changed user value, whether or not it invalidates |
| KCache.Engine.SetValue | scripts/kconfiglib.py:4636-4732 | accepts exactly the valid values, records them, and the cache stays sound |
| KCache.Engine.UnsetValue | scripts/kconfiglib.py:4734-4741 | removes the user value and the cache stays sound |
| KCache.Engine.SetMode | scripts/kconfiglib.py:5346-5390 | accepts exactly the valid modes of a choice, and the cache stays sound |
| KCache.Engine.UnsetChoice | scripts/kconfiglib.py:5392-5399 | removes mode and selection of a choice, and the cache stays sound |
| KCache.Engine.AskFor | scripts/kconfiglib.py:4356-4603 | answers any attribute with the value computed without a cache |
| KCache.Engine.Perform | scripts/kconfiglib.py:4356-4741 | every operation keeps the cache sound and has its cache-free meaning |
| KCache.Session | scripts/kconfiglib.py:4356-5003 | over every sequence of assignments and questions, choices included, the caching engine answers what cache-free evaluation answers |
| KMeaning.NotMeans | scripts/kconfiglib.py:6087-6148 | !n is y, !y is n and !m is m |
| KMeaning.AndOrMean | scripts/kconfiglib.py:6087-6148 | && is the lower and || the higher of two levels |
| KMeaning.DeMorgan | scripts/kconfiglib.py:6087-6148 | De Morgan's laws and double negation, over all values |
| KMeaning.ComparisonsMean | scripts/kconfiglib.py:6087-6148 | a comparison is y or n; of <, = and > exactly one is y, and the other three comparisons are their opposites |
| KMeaning.LevelsCompare | scripts/kconfiglib.py:6087-6148 | bools and tristates compare by level |
| KMeaning.TextsCompare | scripts/kconfiglib.py:6087-6148 | strings compare by their first differing character, a prefix first |
| KMeaning.NumbersCompare | scripts/kconfiglib.py:6087-6148 | items that are not both strings compare as numbers, each read in the base of its type, and as texts if one of them is none |
| KMeaning.ModeMeans | scripts/kconfiglib.py:5292-5309 | the mode of a choice from its visibility, the wanted mode and whether it is optional or has an m |
| KMeaning.VisMeans | scripts/kconfiglib.py:6399-6429 | a visibility is that of the most visible prompt, nothing where the mode of the choice hides the symbol, with m counting as y where there is no m |
| KMeaning.ValueMeans | scripts/kconfiglib.py:4507-4585 | a symbol outside choices starts from the user's value within its visibility, else from the first default in effect or what implies it, and is raised to what selects it; m becomes y where there is no m or y is implied |
| KMeaning.ValueBounds | scripts/kconfiglib.py:4507-4585 | a value is at least its select, at least its imply where dependencies are met and no user value counts, and m only where there is an m; otherwise the user gets the value set, within visibility |
| KMeaning.ImpliedUnless | scripts/kconfiglib.py:4507-4585 | a value is at least its imply if and only if nothing is implied, something selects it, or the user, its dependencies or its default in effect do not leave it at n |
| KExamples.ImpliedInVain | scripts/kconfiglib.py:4507-4585 | a symbol with its dependencies met that y implies and the user sets to n, which is n |
| KMeaning.SelectionMeans | scripts/kconfiglib.py:5528-5557 | a choice picks a symbol exactly when it is at y and one is visible: the user's if visible, else that of the first default in effect that is visible, else the first visible one |
| KMeaning.ChoiceSymbolMeans | scripts/kconfiglib.py:4507-4585 | a symbol of a choice is y when visible at y and picked, m when visible at m and wanted, and n otherwise |
| KMeaning.OneIsY | scripts/kconfiglib.py:5528-5557 | in a choice at y with a visible symbol, exactly one symbol is y, and it is visible and the one picked |
| KMeaning.NumberMeans | scripts/kconfiglib.py:4356-4504 | an int or hex is the user's if visible and inside the active range, else the first default in effect, moved into that range |
| KMeaning.NumberInRange | scripts/kconfiglib.py:4356-4504 | a number with an active range lies inside it |
| KMeaning.TextMeans | scripts/kconfiglib.py:4356-4504 | a string is the user's if visible, else its first default in effect; bools read as their level and unknown symbols as their name |
| KMeaning.LevelWritten | scripts/kconfiglib.py:4507-4585 | a bool or tristate is written exactly when it is visible or not n, in a choice exactly when visible |
| KMeaning.TextWritten | scripts/kconfiglib.py:4356-4504 | a string or number is written exactly when it is visible or has a default in effect |
| KAssign.AssignableMeans | scripts/kconfiglib.py:4910-4953 | a value is named as assignable exactly when setting it makes it the value, for all values if and only if the symbol is not visible at m, selected at m and implied at y |
| KAssign.ChoiceAssignableMeans | scripts/kconfiglib.py:4910-4953 | for a symbol of a choice the same if and only if it is the one picked where it is visible at y, and neither selected nor implied at y where it is visible at m |
| KAssign.ModeAssignableMeans | scripts/kconfiglib.py:5509-5526 | a mode of a visible choice is named exactly when setting it makes it the mode |
| KAssign.PickingTakes | scripts/kconfiglib.py:4636-4732 | in a choice at y, setting a visible symbol to y makes it the one picked, and y |
| KAssign.SettingMeans | scripts/kconfiglib.py:4636-4732 | which values each type takes; a taken one changes that assignment, and the pick of the choice if it is y, and nothing else; any other changes nothing |
| KAssign.ModeSettingMeans | scripts/kconfiglib.py:5346-5390 | which modes a choice takes, and that a taken one changes nothing else |
| KAssign.UnsettingMeans | scripts/kconfiglib.py:4734-4741 | unsetting takes the assignment back, and for a choice the pick, and nothing else |
| KExamples.AssignableInVain | scripts/kconfiglib.py:4910-4953 | a tristate visible and selected at m and implied at y: m is named as its one assignable value, and it is y |
| KExamples.NotNamedButTaken | scripts/kconfiglib.py:4910-4953 | a choice of two symbols with the first picked: y is named as the one assignable value of the second, which is n |
| KLoop.Checker.CheckSym | scripts/kconfiglib.py:6673-6747 | the search from a symbol, with marks kept on the nodes, does what the recursive specification of it does |
| KLoop.Checker.CheckChoice | scripts/kconfiglib.py:6750-6781 | likewise from a choice, with the symbol it was entered by left out |
| KLoop.SymMeans | scripts/kconfiglib.py:6784-6826 | what a search hands back is a chain of linked items that leads from group to group; what it raises is a loop |
| KLoop.SymClean | scripts/kconfiglib.py:6673-6781 | a search that comes back clean has finished its symbol after everything that depends on it, and met a node in progress otherwise |
| KLoop.SettledHops | scripts/kconfiglib.py:6750-6781 | after a clean search, every loop left goes into a choice by one symbol and on from another, or from the choice itself |
| KLoop.CheckAll | scripts/kconfiglib.py:1121-1124 | checking every defined symbol never ends half way; what is reported is a loop; the dependents, with each choice and its symbols as one, have no loop if and only if the check passes and no loop hops within a choice |
| KLoop.OneWayIsHopFree | scripts/kconfiglib.py:6750-6781 | no loop hops if no choice has an edge to one symbol and an edge from another, in particular if there are no choices |
| KLoop.LoopMissed | scripts/kconfiglib.py:6750-6781 | a choice of three symbols with a loop from the third over an outside symbol to the second, which the check passes |
| KLoop.AcyclicIsLayered | scripts/kconfiglib.py:6673-6781 | exactly the graphs without loops have heights that rise from each item to its dependents |
| KOrder.SourceKind | scripts/kconfiglib.py:3508-3567 | a rule reads an earlier stage of its own choice or item, an item it names, the modules symbol on account of a tristate, or a constant |
| KOrder.ReadsEarlier | scripts/kconfiglib.py:5528-5557 | with heights from the loop check and stages within a choice (its visibility, its symbols' visibilities, the selection, the values) every rule only reads attributes of lower rank |
| KOrder.OrderExists | scripts/kconfiglib.py:4344-4353 | the attributes of a configuration without loops, choices included, have an order if and only if the modules symbol depends on no attribute of a tristate |
| KOrder.CheckedSession | scripts/kconfiglib.py:1121-1124 | where no loop hops within a choice and the modules symbol depends on no tristate, a configuration is refused exactly when its dependencies have a loop, and otherwise every session over all attributes is answered as without a cache |
| KExamples.ModulesAskedBack | scripts/kconfiglib.py:4344-4353 | a configuration whose modules symbol reads a tristate: no dependency loop, yet no values satisfy the rules and no order exists |
| KExamples.LoopHopped | scripts/kconfiglib.py:6750-6781 | a configuration with a choice that passes the check, yet no values satisfy the rules and no order exists |
| KRoundTrip.TriComesBack | scripts/kconfiglib.py:4507-4585 | a visible symbol whose saved value becomes its user value keeps its tristate value, given the attributes below it, exactly when it is not y above a visibility of m by a default alone |
| KRoundTrip.StrReloaded | scripts/kconfiglib.py:4356-4504 | and keeps its string value, ranges included |
| KRoundTrip.AttributeKept | scripts/kconfiglib.py:4356-4603 | every attribute keeps its value if those it reads do |
| KRoundTrip.RoundTrip | scripts/kconfiglib.py:4356-4603 | without choices, replacing all user values by the saved ones changes no attribute if no y is lost in this way |
| KRoundTrip.RoundTripExactly | scripts/kconfiglib.py:4356-4603 | and changes none only then |
| KRoundTrip.NothingLostWithoutModules | scripts/kconfiglib.py:4344-4353 | with modules off no y is lost |
| KExamples.DefaultAboveVisibility | scripts/kconfiglib.py:4507-4585 | a configuration with a tristate that is y by default and visible at m, which comes back as m |
| KText.UnescapeEscape | scripts/kconfiglib.py:6283-6302 | unescape undoes escape on every string |
| KText.EscapeMeans | scripts/kconfiglib.py:6283-6302 | escaping puts a backslash before backslashes and quotes and changes nothing else |
| KText.QuotedEscaped | scripts/kconfiglib.py:7301-7303 | the pattern for quoted values finds exactly the escaped text, whatever follows the closing quote |
| KText.ParseAssign | scripts/kconfiglib.py:987-988 | an assignment line is read back as its name and text, with trailing whitespace removed as the host language does |
| KText.ParseUnset | scripts/kconfiglib.py:1332-1346 | an 'is not set' line is read back as its name |
| KText.SplitConcat | scripts/kconfiglib.py:1270-1272 | after text that ends in a line break, what follows is split by itself, whichever of the line breaks are used |
| KConfigFile.ConfigString | scripts/kconfiglib.py:4606-4627 | gives a symbol's line with its true value, or nothing if the symbol is not written |
| KConfigFile.ConfigContents | scripts/kconfiglib.py:1587-1662 | the text is the header and then, per node, the line of each symbol at its first node, the note of each visible menu and comment, and the ends of menus, with the blank lines between them |
| KConfigFile.WriteConfig | scripts/kconfiglib.py:1587-1662 | the same from the links of the menu tree: nodes are met in the order of the tree, and left behind where their menus end |
| KConfigFile.SmallFile | scripts/kconfiglib.py:1587-1662 | the characters of a file with a menu, a symbol met twice, a symbol that is n and a comment that is off |
| KConfigFile.MenuEntries | scripts/kconfiglib.py:1610-1662 | a menu is noted before what is in it and ended after it, with its dependencies and its visibility deciding both |
| KConfigFile.LoadConfig | scripts/kconfiglib.py:1248-1374 | after loading with replace, each symbol has the last value assigned to it in the file, or none; what a line assigns is in LevelLineSays, NumberLineSays and TextLineSays |
| KConfigFile.UnsetRest | scripts/kconfiglib.py:1364-1374 | symbols the file did not set lose their user value |
| KConfigFile.LineMeansSaved | scripts/kconfiglib.py:4606-4627 | the line written for a symbol assigns the saved value to that symbol and to no other |
| KConfigFile.LinesLook | scripts/kconfiglib.py:4606-4627 | the characters of the line written for each type, n written as a comment |
| KConfigFile.LevelLineSays | scripts/kconfiglib.py:1270-1362 | for every bool or tristate and every text, a line assigns something exactly when the text starts with y or n, or m for a tristate, to that symbol alone, and what it assigns prints as that letter |
| KConfigFile.NumberLineSays | scripts/kconfiglib.py:1270-1362 | a line for an int or hex assigns its text exactly when it reads as a number, not below zero if hexadecimal |
| KConfigFile.TextLineSays | scripts/kconfiglib.py:1270-1362 | a line for a string assigns the unescaped text up to the closing quote, whatever follows, and nothing without an opening quote |
| KConfigFile.FileSplits | scripts/kconfiglib.py:1587-1662 | loading splits the written text into exactly the lines it was written as, if the header ends in a line break |
| KConfigFile.RestoresIfQuiet | scripts/kconfiglib.py:1270-1374 | the file assigns exactly the saved values if and only if no header line or note has the last word on a symbol with another value |
| KConfigFile.CommentUnsets | scripts/kconfiglib.py:1332-1360 | the note of a comment can read as unsetting a symbol |
| KConfigFile.CommentUndoesValue | scripts/kconfiglib.py:1587-1662 | a symbol followed by such a comment is not restored |
| KConfigFile.HeaderSwallows | scripts/kconfiglib.py:1587-1662 | a header without a final line break takes the first line with it |
| KConfigFile.SaveAndLoad | scripts/kconfiglib.py:1248-1662 | the file one engine writes gives any other engine, whatever it was set to before, the same value for every attribute, if and only if no symbol visible at m is y by a default alone |
| KParse.Parser.CheckToken | scripts/kconfiglib.py:2611-2621 | consumes a token exactly when it is the next one |
| KParse.Parser.ParseExpr | scripts/kconfiglib.py:3413-3455 | the cursor parser for disjunctions reads what the grammar reads |
| KParse.Parser.ParseAndExpr | scripts/kconfiglib.py:3457-3467 | likewise for conjunctions |
| KParse.Parser.ParseFactor | scripts/kconfiglib.py:3469-3502 | likewise for factors and comparisons; where m is to be rewritten, exactly the m outside comparisons become `m && MODULES` |
| KParse.ParsePrinted | scripts/kconfiglib.py:6166-6208 | parsing the printed form of any expression consumes all of it and gives the right-associated form |
| KParse.OperatorsBind | scripts/kconfiglib.py:3413-3502 | between any operands && binds closer than ||, and both bind to the right |
| KParse.NotOperand | scripts/kconfiglib.py:3469-3502 | the negation of an operand is an operand, so ! binds closest |
| KParse.ParenOperand | scripts/kconfiglib.py:3469-3502 | what parses as an expression is an operand in parentheses |
| KParse.PrintRightForm | scripts/kconfiglib.py:6166-6208 | the right-associated form prints as the same tokens |
| KParse.RightFormMeans | scripts/kconfiglib.py:6087-6148 | and has the same value under every assignment |
| KParse.RewrittenMeans | scripts/kconfiglib.py:3469-3490 | with modules on, rewriting m changes no value |
| KParse.ReadBack | scripts/kconfiglib.py:3413-3502 | printing and parsing with the cursor parser gives that form, with m rewritten where it is asked for |
| KMenu.FlatFacts | scripts/kconfiglib.py:6592-6616 | flattening a level keeps its pre-order, its nodes and its first node |
| KMenu.DropFacts | scripts/kconfiglib.py:6619-6642 | dropping flattened 'if' nodes keeps the pre-order of all others |
| KMenu.LiftedTo | scripts/kconfiglib.py:6592-6642 | flattening and dropping every level puts each node below its nearest ancestor that has a prompt or is a choice |
| KMenu.HeldBy | scripts/kconfiglib.py:6592-6642 | and that is where its parent link then leads |
| KMenu.Tree.Adopt | scripts/kconfiglib.py:6605-6610 | gives a whole chain of children a new parent, changes nothing else, and ends at its last node |
| KMenu.Tree.Splice | scripts/kconfiglib.py:6604-6614 | puts the children of a node after it, linked into its level |
| KMenu.Tree.Flatten | scripts/kconfiglib.py:6592-6616 | the links of the level afterwards are those of the flattened level, in which the nodes that are not choices and have no prompt have their children after them; terminates although the level grows |
| KMenu.Tree.RemoveIfs | scripts/kconfiglib.py:6619-6642 | the links of the level afterwards are those of the level without 'if' nodes |
| KMenu.Tree.TakeDependents | scripts/kconfiglib.py:3623-3642 | a symbol takes for children exactly the nodes up to the first that does not depend on it, all nodes stay in order, and the links form a tree |
| KMenu.Tree.FinalizeChildren | scripts/kconfiglib.py:3656-3660 | children are finalised in turn, in order, without losing any |
| KMenu.Tree.FinishLevel | scripts/kconfiglib.py:3662-3666 | below a finished node there is no 'if' and no promptless node with children, the order of the others is kept, and the level is the flattened one without its 'if' nodes |
| KMenu.Tree.FinalizeNode | scripts/kconfiglib.py:3598-3666 | finalising a node keeps the order of all nodes but 'if', loses none, finishes every level below it, stops its submenu where dependence stops, and touches no link outside its level |
| KMenu.Tree.NodeIter | scripts/kconfiglib.py:1940-1962 | the iterative walk by list, next and parent links visits the tree in pre-order |
| KMenu.Tree.EventWalk | scripts/kconfiglib.py:1610-1637 | the walk of the writer meets every node in pre-order and leaves each node with children after the last of them |
| KMenu.TourVisits | scripts/kconfiglib.py:1610-1637 | that walk enters the nodes in pre-order and leaves those with children in post-order |
| KMenu.Tree.FinalizeMenu | scripts/kconfiglib.py:3598-3666 | walking the finalised tree visits exactly the parsed nodes other than 'if', in the parsed order; with implicit submenus taken as far as dependence reaches, the parent of each node is its nearest ancestor that has a prompt or is a choice |
| Bpak.Header.constructor | src/lib/bpak.c:152-160 | an empty header holds no entry, no part and no metadata byte, and has the magic, the default kinds and the part alignment |
| Bpak.Header.GetMeta | src/lib/bpak.c:16-45 | finds the first slot with the id and reference, and fails only if there is none |
| Bpak.Header.AddMeta | src/lib/bpak.c:52-81 | for every header: the slot the scan ends at is filled even when the entry does not fit, with 16-bit wrap-around of the offset |
| Bpak.ScanPacked | src/lib/bpak.c:58-78 | in a packed table the scan ends at the listed entry, or at the end with the prefix sum of aligned sizes |
| Bpak.Header.Add | src/lib/bpak.c:52-81 | an add is refused exactly when the entry is listed, the table is full or the bytes do not fit, and the last case ruins the table |
| Bpak.DeletedIsRemoved | src/lib/bpak.c:91-98 | a deletion loses nothing but the deleted entry if and only if no later payload has a non-zero byte beyond the aligned freed size |
| Bpak.LongerPayloadIsCut | src/lib/bpak.c:91-98 | a concrete two-entry table whose second payload is damaged by deleting the first |
| Bpak.Header.DelMeta | src/lib/bpak.c:83-109 | a deletion leaves a packed table of the remaining entries; from a full table it leaves the last entry twice, or undeleted, and wipes the first part header |
| Bpak.FoundIsListed | src/lib/bpak.c:16-45 | in a packed table a slot is found exactly for listed entries, and leads to their bytes |
| Bpak.Replay | src/lib/bpak.c:16-109 | after every run of accepted adds and harmless deletes a lookup finds exactly the entries added and not deleted, with the bytes stored |
| Bpak.Header.AddPart | src/lib/bpak.c:123-136 | appends a new id, refuses a listed one and a full table, and touches no other part |
| Bpak.Header.DelPart | src/lib/bpak.c:138-150 | removes one part and keeps the others in order, also from a full table |
| Machine.Board.Drift | include/pb/crypto.h:45-48 | any progress of the hash driver leaves what it has been given unchanged |
| Machine.Board.UpdateAsync | include/pb/crypto.h:90-104 | a further update waits, and what is hashed grows by the window as it is now |
| Machine.Board.Final | include/pb/crypto.h:52-53 | the digest is taken of everything given, in order |
| Machine.Board.Transfer | src/bio.c:182-196 | a transfer interleaved byte by byte with the driver delivers its bytes and changes nothing given to the driver, if the windows are disjoint |
| Machine.Board.Read | src/bio.c:169-196 | a read succeeds exactly when its blocks are inside the partition and readable, and otherwise touches only its window |
| Loader.ValidHeader | src/lib/bpak.c:232-260 | accepts exactly headers with the magic, aligned parts, metadata in bounds and a hash kind |
| Loader.VerifyParts | src/boot/image_helpers.c:126-184 | accepts exactly images all of whose parts have a load address clear of the five regions, and reports what is wrong with the first part that is not |
| Loader.PartOffset | src/lib/bpak.c:262-284 | with distinct ids, a part starts after the header and the sizes of the parts before it |
| Loader.PartsTile | src/lib/bpak.c:262-284 | the parts, padding included, tile the payload: every byte of it belongs to exactly one, and later bytes to later parts |
| Loader.LoadChunk | src/boot/image_helpers.c:251-276 | a chunk lands at its address and is appended to what is hashed |
| Loader.LoadPart | src/boot/image_helpers.c:247-276 | whatever the chunk size and the driver's pace, a part lands at its address and is appended, whole, to what is hashed |
| Loader.LoadAndHash | src/boot/image_helpers.c:186-289 | success means every part is in place and the digest is that of all parts in table order, independent of the chunk size; nothing outside the load windows changes; without bad blocks it succeeds exactly for loadable images |
| Loader.LongAddressInside | src/boot/image_helpers.c:141-149 | in an accepted header the eight bytes of a load address lie inside the metadata if its entry has at least eight |
| Loader.ShortAddressCanBeOutside | src/boot/image_helpers.c:141-149 | a header with a shorter entry is accepted too, and its address reaches beyond the metadata |
| Loader.CopySignature | src/lib/bpak.c:332-347 | refuses a signature size of nothing or more than fits and leaves the header alone, else gives the signature and clears exactly it and its size |
| Loader.AuthHeader | src/boot/image_helpers.c:36-124 | succeeds exactly for a well-formed header with a usable key and hash whose signature is good for the header without it, and leaves that header |
| Loader.AuthenticIsSigned | src/boot/image_helpers.c:36-124 | a header is authentic exactly when it is well-formed, has a key in use and hash kind 1 to 3, and a signature of 1 to 512 bytes that is good for its first 3582 bytes and zeros |
| Loader.UnsignedSees | src/lib/bpak.c:332-347 | two headers give the same signed message exactly when their first 3582 bytes agree |
| Loader.CheckedIsOutside | src/boot/image_helpers.c:152-180 | no byte of a checked region belongs to a load window |
| Loader.LoadFromBio | src/boot/boot.c:96-157 | boot succeeds exactly for a bootable partition with an authentic header whose payload has the recorded digest, and reports a bad payload for any other digest; then all parts are loaded and the header in memory is the authenticated one without its signature; the checked regions are never touched |
| Loader.SoundDigest | src/boot/image_helpers.c:360-390 | a payload passes exactly when all 32, 48 or 64 bytes of its digest are those recorded |
| Loader.SamePayloadOrCollision | src/boot/image_helpers.c:360-390 | two partitions that boot with the same header have payloads of the same digest: the same payload, or a collision |
| PartStore.VerifyBody | src/cm/cm_main.c:447-472 | the double-buffered loop hashes the body as it is on the partition, whatever the driver's pace |
| PartStore.PartVerify | src/cm/cm_main.c:396-500 | verification succeeds exactly when the digest of header and body matches, with the word-size wrap of the byte count |
| PartStore.Target.PrepareBuffer | src/cm/cm_main.c:647-670 | refuses a buffer that does not exist or is too small, else holds the bytes |
| PartStore.Target.WriteBuffer | src/cm/cm_main.c:365-394 | writes the buffer at the block of the offset exactly when writable and in range |
| PartStore.SendChunk | tools/punchboot/api_stream.c:53-156 | a chunk sent through a buffer arrives at its offset |
| PartStore.SendBody | tools/punchboot/api_partition.c:409-424 | streaming with alternating buffers lays the bytes down in order |
| PartStore.PartitionWrite | tools/punchboot/api_partition.c:379-424 | a BPAK file is laid down as body at the start and header at the end, any other file from the start |
| PartStore.LaidIsImage | src/cm/cm_main.c:422-472 | a BPAK file lies with its first 4096 bytes at the end of the partition and the rest at the start, nothing else changed, and what the device hashes of it is the file |
| PartStore.WriteThenVerify | tools/punchboot/api_partition.c:379-424 | a file that was written verifies with its own size and digest |
| RamBoot.HeaderArrives | src/boot/image_helpers.c:186-289 | once the device has the header, the part sizes it goes by are those the host cut the parts by |
| RamBoot.MoveKeeps | tools/punchboot/api_boot.c:122-213 | every step of either side keeps the byte and result streams of the two sides in step |
| RamBoot.Progress | src/boot/boot.c:194-244 | until both have stopped some side can move, whatever the channel capacities |
| RamBoot.WorkLeft | tools/punchboot/api_boot.c:122-213 | no side ever does more than the session has to do |
| RamBoot.RunKeeps | tools/punchboot/api_boot.c:122-213 | every schedule keeps the agreement and uses up work at each step |
| RamBoot.Agreement | tools/punchboot/api_boot.c:122-213 | for all parts, chunk sizes and verdicts, every schedule is finite and can only stop with empty channels, both sides holding the device's verdict, and the device holding exactly the bytes sent |
| RamBoot.FindingsDecide | src/boot/boot.c:194-244 | a finished session ends with the code of the first failed check of the header, or of the payload, and the device holds the parts exactly if the header passed |
| RamBoot.NoPartAfterRefusal | src/boot/boot.c:194-244 | in no schedule does a device that refused the header take a byte of a part |
| Gate.CommandMode.Parse | src/cm/cm_main.c:678-879 | a handler runs exactly when the gate admits its command and then changes what its command is for and nothing else; only lifecycle commands refresh the value the gate goes by; command mode ends with a reset, and with the first result sent without error after a board command asked for a reboot |
| Gate.CommandMode.Authenticate | src/cm/cm_main.c:283-327 | the host counts as authenticated by the outcome of a supported method only |
| Gate.Serve | src/cm/cm_main.c:887-961 | on a locked device, until an authenticate succeeds, exactly the identifier reads and authenticates with the right magic are answered, nothing changes, the lock included, and every command is served; a session ends early only by a reset or a board command |
| Gate.DecisionNeedsSuccess | src/cm/cm_main.c:283-327 | nobody is authenticated without an authenticate that succeeded |
| Der.Asn1Size | src/lib/der_helpers.c:22-51 | reads a length as the big-endian value of up to four octets, and refuses the other forms |
| Der.SizeOfLength | src/lib/der_helpers.c:22-51 | reading a length undoes its DER encoding, anywhere in memory, below 2^32 |
| Der.LengthLooks | src/lib/der_helpers.c:22-51 | the octets of short and long lengths, and what they stand for |
| Der.ReadInt | src/lib/der_helpers.c:72-95 | copies the contents of an integer to the front of the output, or leaves it alone |
| Der.EcsigToRs | src/lib/der_helpers.c:53-115 | decodes the two integers to the front of the outputs and leaves the rest of them alone |
| Der.DecodeEncoded | src/lib/der_helpers.c:53-115 | for all positive r and s, decoding their DER encoding gives their minimal octets, or fails exactly when one is too long, and never reads past the encoding |
| Der.EncodedLooks | src/lib/der_helpers.c:53-115 | the octets of a short signature, tags and lengths included, and what is decoded from them |
| Der.NothingToSuppress | src/lib/der_helpers.c:72-95 | an integer of no octets followed by a zero and a set bit is refused as too long when zeros are suppressed, because its size wraps |

## Left out

- Drivers, transports, console, timestamps and the Python wrapper: device reads and writes, their failures and the pace of the hash driver are inputs or arbitrary choices of the model.
- Hash and signature mathematics: hashes are arbitrary functions of byte sequences and signature checks arbitrary predicates.
- The device tree and jump code, erasing, and partition table installation: not modelled.
- Choices in the round trip and in the printer: those two parts are for configurations without choices; the loop check, the order and the cache theorem include choices.
- Kconfig parsing of files, macros and properties: configurations are given as parsed values; `write_min_config`, `option env` and `defconfig_list` are not part of the round trip.
- Menu finalisation: property copying and dependency propagation are not modelled; the dependency test is a given function of two nodes.
- Decoding a load address from the metadata: the loader takes load addresses as a map from part ids; only where their bytes lie is modelled.
- Images already in memory and the copying variant of the loader: they would repeat the load loop without reads.
- `boot_load` callbacks, boot flags and the partition choice: easy members around the modelled load paths.
- Rejected buffer exchanges and the error exits of stream reading: the two ends are not written to agree there.
- Fault reports inside a RAM boot session (transport errors on either side): drivers do not fail there.
- AbState.AbBoot.Init: a copy that cannot be read counts as cleared memory, as after start-up; in the runs of AbRuns every copy can be read and every partition is found.
- KOrder.CheckedSession: asks that no loop hops within a choice and that the modules symbol depends on no tristate, because the loop check sees neither and the engine then recurses without end (KExamples).
- KMeaning.NumberInRange: asks that a printed number reads as itself, because printing and reading numbers are given functions.
- KConfigFile.LevelLineSays: for texts without trailing blanks, which loading strips first; likewise NumberLineSays and TextLineSays.
- KConfigFile.LoadConfig: configurations without choices, whose loading also sets the mode of a choice; warnings are not modelled.
- KConfigFile.UnsetRest: likewise without choices.
- KConfigFile.SaveAndLoad: likewise without choices; values without line breaks, and numbers without trailing whitespace.
- KMenu.Tree.FinalizeNode: without property copying, dependency propagation and choice finalisation, which change no link.
- KMenu.Tree.FinalizeMenu: likewise.
- Bpak.Header.DelMeta: asks for a packed table and a listed entry, because anything else moves memory outside the header.
- Loader.LoadAndHash: asks for distinct ids, whole-block parts and disjoint load windows inside memory; addresses and sizes do not wrap.
- Loader.LoadFromBio: asks the same of the image on this partition, if it is authentic.
- PartStore.Target.WriteBuffer: asks for whole blocks, because what becomes of part of a block is up to the driver.
- PartStore.SendChunk: asks for whole blocks, for the same reason.
- PartStore.SendBody: asks for whole blocks, for the same reason.
- PartStore.PartitionWrite: asks for whole blocks and a file that fits beside its own header.
- PartStore.WriteThenVerify: asks for what PartitionWrite asks for.
- Gate.CommandMode.Parse: handlers are represented by the state they may change, not by what they compute.
