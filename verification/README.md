# A verified model of the key/value store, the configuration evaluator, the timers and the buttons

This project models four parts of the repository and proves what they are for.

**`kved`, the log-structured key/value store on flash.** Flash is two index sectors and two
string sectors of 64-bit words; programming clears bits, erases and word writes are atomic
(the code's own caveat, `components/nvkvs/kved/kved.c:1102-1107`). Each operation has a
*plan*: the flash steps it performs and the control block it leaves. `Kved.dfy` is the store
as the code runs it, a class whose methods are proved to perform exactly their plans;
everything else is proved about the plans. The main results:

- every run of puts, gets, deletes and compactions, strings included, answers like a plain
  map of bounded size (`KvedRuns.RunRefines`, from a blank flash by `KvedRuns.FreshStore`),
  with types if each entry keeps its key word (`KvedRuns.RunRefinesTyped`);
- cutting the power after any flash step of any operation, of the sector switch, or of
  recovery itself, leaves a flash that boots to the number entries before or those after,
  strings in the store or not (`KvedMixed.OpCut`, `KvedPower`, `KvedCrash`);
- a store of numbers, over any number of sessions cut anywhere, is a reference map after the
  operations that count, which are all those finished before their cut
  (`KvedSessions.LifeRefines`); the reference differs from a plain map in exactly one respect,
  the lost write below;
- recovery keeps exactly the last entry of every key, is idempotent, and may be interrupted
  and rerun (`KvedIndex`, `KvedBoot`).

**`kconfiglib`, the configuration evaluator.** Symbols, choices, selections and MODULES are
evaluated by an uncached recursive specification that also tells what was consulted. The
lazy cache with its early-stopping invalidation is a class proved to answer every sequence
of assignments and reads as that specification does (`KconfigCache.Evaluator.Perform`), if
the configuration refers to all that its evaluation reads; in every configuration, what an
assignment leaves cached is right exactly if it reached all that changed. What that
specification comes to is stated without it: what a user value, a default, a select, an imply, a
choice contribute to a value (`KconfigValue`), and that what is set is read (`KconfigAssign`).
Beside it: the loop check, choices included, is exact but for one kind of loop, and what it
passes without that kind can be ranked; the parser accepts exactly its grammar, means what its
lines say, and undoes the printer; dependency propagation gives each prompt the least of all
conditions around it; the in-place menu surgery, implicit menus included, and the iterator keep
the preorder; string literals are read back as written.

**`oblfr_timer`** is the deadline-sorted list whose processing loop re-inserts into the list
it walks, and **`oblfr_button`** the debouncing click recogniser, with every callback of every
run.

## What the code does that its documentation does not say

- After a boot that tombstoned a half-written slot with free slots behind it, the free index
  still names that slot. The next value-changing write reports success and is lost, and an
  older value of the key is lost with it (`KvedSessions.FirstWriteAfterBoot`, if and only if;
  `KvedSessions.CutThenWriteAgain` reaches it from every healthy store with two free slots).
  Compaction, or any write that switches sectors, heals it (`KvedSwitch.SwitchHeals`), and
  after the lost write the store answers like the map again (`KvedRuns.RunRefines`).
- Strings do not survive a boot as numbers do. The boot opens string sector A whenever it is
  signed, and it stays signed when a sector switch moves on to B: strings come back as they
  were exactly under the condition of `KvedReboot.RebootReads`, and `KvedReboot.OtherTextAfterBoot`
  is a run after which a key reads another key's text. Nor is the free space of the string sector
  recomputed, so the next string is written over the first (`KvedReboot.RebootForgets`, if and
  only if none is there; `KvedReboot.TextsOverwritten` says what both then read).
- The "unchanged" test and the sector switch leave the type nibble of a stored key alone, so
  rewriting a number under another number type can keep the old type: exactly if the value is
  the same or no slot is free (`KvedRuns.StoredKey`; `KvedRuns.TypeIsKeptFresh` gives an input).
- The configuration cache goes wrong on configurations that only get a warning: a choice default
  outside the choice (`KconfigMissed.OutsideDefaultIsMissed`), whose visibility is read but not
  depended on, and a choice symbol prompted outside its choice only
  (`KconfigMissed.OutsidePromptIsMissed`), which reads the selection without depending on the
  choice. `Covered` in `KconfigEval` rules out both families, and then the cache is always right;
  `KconfigMissed.DefaultIsMissed` and `KconfigMissed.ChoiceSymbolIsMissed` show that outside it
  an assignment that changes such a value without reaching it always goes wrong.
- The loop check can miss a loop that leads from a symbol of a choice to an earlier one
  (`KconfigBlind.LoopIsNotSeen`), and misses no other (`KconfigLoop.CheckDecides`, if and only if).
- Two presses need not give a double click: a second press that is not short ends the burst
  without a report (`Button.TwoPressesNoClick`; `Button.BurstsEnd`, if and only if).
- A debounce threshold of 8, which the settings allow and a comment calls the maximum, never
  registers a press (`Button.EightNeverFlips`).
- A timer pass can leave timers overdue, because the successor is read before the timer is
  put back. It leaves none if and only if between any two missed deadlines of a periodic timer
  there is a deadline of another one (`TimerMerge.CatchesUp`, stated for the list on entry and
  the time the pass ends; `TimerMerge.PassCanLag` is an input for which it fails). Every pass that has
  something to fire makes the list less overdue as a whole.

## Files

| files | content |
|---|---|
| `KvedWord`, `KvedFlash`, `KvedIndex`, `KvedStrings` | words and keys, flash steps, the slots of a sector as a map, the string table as a log |
| `KvedStore`, `KvedKeys` | configuration, control block and the plan of each operation; which keys are refused |
| `KvedInvariant`, `KvedSwitch`, `KvedWrite`, `KvedOps`, `KvedMap`, `KvedText`, `KvedRuns` | invariants and refinement without power loss |
| `KvedBoot`, `KvedCrash`, `KvedPower`, `KvedMixed` | recovery, power cuts |
| `KvedNumbers`, `KvedSessions`, `KvedReboot` | stores of numbers over many sessions; strings over a boot |
| `Kved`, `KvedLayout` | the class that performs the plans; the flash driver's regions, which are apart for every driver that its init accepts |
| `KconfigEval`, `KconfigStable`, `KconfigInvalidate`, `KconfigCache`, `KconfigMissed` | uncached evaluation, what it depends on, what an invalidation leaves, the cache, where it goes wrong |
| `KconfigValue`, `KconfigAssign` | what evaluation makes of a configuration, what an assignment does to it |
| `KconfigNet`, `KconfigSearch`, `KconfigLoop` | loops, the search for them, the loop check |
| `KconfigRank`, `KconfigBlind` | well-founded evaluation; a loop that is not seen |
| `KconfigParse`, `KconfigPrint`, `KconfigQuote` | expressions and string literals as text |
| `KconfigDeps` | dependency propagation |
| `KconfigShape`, `KconfigLinks`, `KconfigFinish`, `KconfigMenu` | menu-tree surgery: on trees, on pointers, its steps, the class |
| `Timer`, `TimerMerge`, `TimerQueue` | the sorted timer list, what a pass leaves overdue, the class |
| `Button`, `Options` | buttons; optional values |

`dafny verify dfyconfig.toml` checks all of it.

## Model

| member | source | states |
|---|---|---|
| `KvedWord.Program` | components/nvkvs/kved/kved.c:1102-1107 | Every bit of the result was set before; over an erased word programming stores exactly what was asked, a tombstone always lands, and nothing can be written over one. |
| `KvedWord.ProgramBits` | components/nvkvs/kved/kved.c:1102-1107 | A bit is set after programming if and only if it was set before and was to be set. |
| `KvedWord.EncodeKey` | components/nvkvs/kved/kved.c:367-387 | Byte by byte: the characters of the key from the top of the word down, zero behind its terminator, and in the low byte the type and the size, which for a string is the length of the key. |
| `KvedWord.DecodeKey` | components/nvkvs/kved/kved.c:354-365 | Gives back the type and the seven key bytes of a word, byte by byte. |
| `KvedWord.KeyRoundTrip` | components/nvkvs/kved/kved.c:354-387 | Two encoded keys get the same label if and only if they have the same length and the same characters up to it. |
| `KvedWord.SignaturesTellApart` | components/nvkvs/kved/kved.h:81-83 | Signatures are equal only for equal limits, and no sector of one kind carries a signature of another. |
| `KvedKeys.WriteRefused` | components/nvkvs/kved/kved.c:389-398 | A write is refused as having an invalid key if and only if the upper 56 bits of the key word are all zero, all one, or those of the signature. |
| `KvedKeys.DeleteRefused` | components/nvkvs/kved/kved.c:936-962 | A delete is, if and only if that is so or no slot carries the key. |
| `KvedKeys.ReadRefused` | components/nvkvs/kved/kved.c:899-924 | A read finds nothing, if and only if that is so or no slot carries the key. |
| `KvedKeys.SpelledReserved` | components/nvkvs/kved/kved.c:389-398 | The keys that no store takes, as the caller spells them: the empty one, seven bytes 0xFF, and the one that spells the signature. |
| `KvedStore.MakeConfig` | components/nvkvs/kved/kved.h:81-83 | The signatures made from the limits can be told from erased and tombstoned words, for all limits. |
| `KvedIndex.RawMapIn` | components/nvkvs/kved/kved.c:400-418 | A label is in the map of a sector exactly when some live slot carries it. |
| `KvedIndex.FindDecides` | components/nvkvs/kved/kved.c:400-418 | The first-match search finds a key exactly when the map has it, and finds the slot the map gives. |
| `KvedIndex.CountsAddUp` | components/nvkvs/kved/kved.c:316-346 | Live, deleted and free slots add up to the total. |
| `KvedIndex.MapSize` | components/nvkvs/kved/kved.c:316-346 | With distinct live keys the number of live slots is the size of the map. |
| `KvedIndex.SweptMap` | components/nvkvs/kved/kved.c:1087-1143 | At every point of the sweep the sector stands for the same last-entry-wins map. |
| `KvedIndex.SweptResult` | components/nvkvs/kved/kved.c:1087-1143 | After the sweep exactly the last occurrence of each valid key is left, keys are distinct and no half-written slot remains. |
| `KvedIndex.SweptResume` | components/nvkvs/kved/kved.c:1087-1143 | A sweep interrupted anywhere and run again gives the slots of an uninterrupted one. |
| `KvedIndex.SweptClean` | components/nvkvs/kved/kved.c:1087-1143 | A second sweep changes nothing. |
| `KvedStrings.TableRoundTrip` | components/nvkvs/kved/kved.c:430-448 | Entry i of a string table reads back the i-th text logged, for every log that fits. |
| `KvedStrings.ReadsIfItFits` | components/nvkvs/kved/kved.c:430-448 | A C string in its place reads back if and only if it fits the limit with its terminator. |
| `KvedStrings.PackRoundTrip` | components/nvkvs/kved/kved.c:150-159 | The packed offset/length word decodes to what was written. |
| `KvedStrings.ExtentsDisjoint` | components/nvkvs/kved/kved.c:591-617 | The extents of any two logged texts are disjoint and inside the data area behind the end signature. |
| `KvedStrings.AppendText` | components/nvkvs/kved/kved.c:591-617 | The two flash steps of a string write turn the table of a log into the table of the log with one more text. |
| `KvedStrings.FirstFreeOfTable` | components/nvkvs/kved/kved.c:1033-1085 | The boot scan for the first free string pointer finds the length of the log. |
| `KvedSwitch.PackedMap` | components/nvkvs/kved/kved.c:462-545 | The packed copy stands for the old map with only the updated label changed, string references renumbered. |
| `KvedSwitch.SwitchExec` | components/nvkvs/kved/kved.c:462-575 | The switch ends, steps and closing check together, in the packed sector on the twin side, with counters to match. |
| `KvedSwitch.SwitchHeals` | components/nvkvs/kved/kved.c:546-571 | From every reachable state the switch leaves a healthy store, and a free slot whenever live keys are fewer than slots. |
| `KvedWrite.FillFresh` | components/nvkvs/kved/kved.c:691-705 | Writing the first free slot and tombstoning the replaced one changes the map at that label only and moves the boundary by one. |
| `KvedWrite.FillTombstone` | components/nvkvs/kved/kved.c:691-705 | A write aimed at a tombstone is lost, and takes the entry it was to replace with it. |
| `KvedWrite.KillSlot` | components/nvkvs/kved/kved.c:952-955 | Tombstoning a live slot removes exactly its label. |
| `KvedOps.AppendIndex` | components/nvkvs/kved/kved.c:691-705 | A write in place keeps the index invariant: used-or-deleted prefix, erased suffix from the free index, distinct live keys, counters equal to the flash. |
| `KvedOps.DeleteIndex` | components/nvkvs/kved/kved.c:936-962 | So does a delete. |
| `KvedMap.GetIsLookup` | components/nvkvs/kved/kved.c:899-924 | Reading is lookup in the map the store stands for, absent and invalid keys included. |
| `KvedMap.SwitchContents` | components/nvkvs/kved/kved.c:462-575 | The switch preserves contents, every string reference leading to the same bytes in the rebuilt table. |
| `KvedMap.PutNumber` | components/nvkvs/kved/kved.c:619-712 | Writing a number from any state: outcome, new contents and invariant. |
| `KvedText.CopyAlwaysFits` | components/nvkvs/kved/kved.c:505-545 | The live texts always fit the twin string area. |
| `KvedText.TextsStayLoggable` | components/nvkvs/kved/kved.c:591-617 | The string index in use stays below the end signature, because it is bounded by the slots that are not free. |
| `KvedText.SwitchStrings` | components/nvkvs/kved/kved.c:505-575 | The rebuilt string table is the log of the live texts, and all references into it are in order. |
| `KvedText.PutRefines` | components/nvkvs/kved/kved.c:619-712 | Every write, strings and sector switches included, from every state: outcome and contents are those of the map, and the invariants are kept. |
| `KvedText.DeleteRefines` | components/nvkvs/kved/kved.c:936-962 | Deleting removes exactly that label, or reports an unknown key and changes nothing. |
| `KvedText.CompactRefines` | components/nvkvs/kved/kved.c:577-589 | Compaction changes nothing a reader can see and leaves a healthy store. |
| `KvedBoot.NextIsNewer` | components/nvkvs/kved/kved.c:559-562 | The successor counter never is the erased word and is the newer of the two, also where it wraps to 0. |
| `KvedBoot.OpenedState` | components/nvkvs/kved/kved.c:975-1031 | Before the sweep exactly one index sector is signed, the newer of the two if both were. |
| `KvedBoot.RunSweep` | components/nvkvs/kved/kved.c:1087-1143 | The flash steps of the sweep produce the swept slots, one tombstone at a time. |
| `KvedBoot.BootRecovers` | components/nvkvs/kved/kved.c:1155-1242 | A boot never fails, recovers the last entry of every label of the winning sector, and leaves counters equal to the flash; the free index is stale in exactly one case. |
| `KvedCrash.NewestWins` | components/nvkvs/kved/kved.c:975-1031 | Whenever a cut leaves both sectors signed, the copy wins, on either side and at the wrap. |
| `KvedCrash.SwitchSafe` | components/nvkvs/kved/kved.c:462-575 | Cutting the switch after any flash step boots to the number entries before or those after, whatever strings are copied with them. |
| `KvedCrash.AppendCut` | components/nvkvs/kved/kved.c:591-705 | Cutting a write in place, string or number, after any step boots to the old map up to the key word, or, from a stale state, up to the tombstone behind it, and to the new map from that step on. |
| `KvedCrash.AppendSafe` | components/nvkvs/kved/kved.c:591-705 | So it is atomic for the number entries at every prefix. |
| `KvedCrash.DeleteSafe` | components/nvkvs/kved/kved.c:936-962 | Cutting a delete anywhere boots to the number entries before or after. |
| `KvedPower.PutSafe` | components/nvkvs/kved/kved.c:619-712 | Crash atomicity of a write, of a string or a number, sector switch included, at every prefix of its flash steps, for the number entries. |
| `KvedPower.PutStale` | components/nvkvs/kved/kved.c:619-712 | A write that goes through ends the state in which the free index is stale, and nothing a write does leads into it. |
| `KvedPower.CompactSafe` | components/nvkvs/kved/kved.c:577-589 | Compaction, cut anywhere, never changes the number entries. |
| `KvedPower.BootSafe` | components/nvkvs/kved/kved.c:1155-1242 | Recovery itself can be cut after any step without changing the entries that are recovered. |
| `KvedMixed.OpCut` | components/nvkvs/kved/kved.c:619-962 | Any operation on any store, strings included, from every state, cut after any flash step: the flash boots, and the number entries recovered are those before the operation or those after. |
| `KvedMixed.BootCutMixed` | components/nvkvs/kved/kved.c:1155-1242 | The same for the boot that follows. |
| `KvedReboot.RebootReads` | components/nvkvs/kved/kved.c:1204-1232 | After a clean boot the store holds what it held, strings included, if and only if the boot opens the string sector that was in use, which it does if that was A or A is not signed, or every string happens to read the same in the other. |
| `KvedReboot.RebootForgets` | components/nvkvs/kved/kved.c:1033-1085 | The code keeps up with the strings after a boot if and only if none was logged: the free space is not recomputed. |
| `KvedReboot.OtherTextAfterBoot` | components/nvkvs/kved/kved.c:1204-1232 | On a fresh store: put two strings, delete the first, compact; the second reads as put, and after a boot it reads as the first. |
| `KvedReboot.TextsOverwritten` | components/nvkvs/kved/kved.c:591-617 | On a fresh store: put a one-byte string, boot, put another; both report success and both read what bit-clearing leaves of the two, as put if and only if they are equal. |
| `KvedNumbers.NumStepRef` | components/nvkvs/kved/kved.c:619-962 | A store of numbers, whatever state it is in, answers each operation like the reference map that loses the first change after a stale boot, and follows it. |
| `KvedNumbers.RefIsMap` | components/nvkvs/kved/kved.c:619-962 | That reference is the plain map unless a session starts stale and does not compact first. |
| `KvedRuns.FullIsFull` | components/nvkvs/kved/kved.c:653-658 | From every state, a value-changing write is refused as full exactly when every slot holds a live key. |
| `KvedRuns.OpRefines` | components/nvkvs/kved/kved.c:619-962 | One operation of any kind answers like the plain map of values, from every state but a stale one. |
| `KvedRuns.OpRefinesTyped` | components/nvkvs/kved/kved.c:619-962 | If the entry keeps its key word, the store also holds the very data, type included, that the map of data holds. |
| `KvedRuns.RunRefines` | components/nvkvs/kved/kved.c:619-962 | Every sequence of puts, gets, deletes and compactions, strings included, answers like a plain map of values of bounded size. |
| `KvedRuns.RunRefinesTyped` | components/nvkvs/kved/kved.c:899-924 | In runs that keep the key word of each entry, every get returns the very data, key word and value, that was last put. |
| `KvedRuns.StoredKey` | components/nvkvs/kved/kved.c:645-650 | The key word stored by a write is the one written, type included, if and only if the entry did not already exist under another key word with the same value or with no slot free. |
| `KvedRuns.TypeIsKeptFresh` | components/nvkvs/kved/kved.c:645-650 | On a freshly formatted store: one number written under two types in turn is read back with the first type. |
| `KvedRuns.FreshStore` | components/nvkvs/kved/kved.c:1155-1242 | Formatting a blank flash gives an empty healthy store, so the run theorem applies from there. |
| `KvedSessions.SessionCut` | components/nvkvs/kved/kved.c:619-962 | Power fails after any number of flash steps of a sequence of operations: what boots is the map after a prefix that holds every operation whose last step was done and none that had not begun. |
| `KvedSessions.NumRun` | components/nvkvs/kved/kved.c:619-962 | A run of any operations on numbers, from every state: answers and outcome are the reference's. |
| `KvedSessions.SessionMap` | components/nvkvs/kved/kved.c:619-1242 | The same cut for a session that begins with a boot, the boot being cut included: the next boot finds what the reference makes of the operations that count; uncut sessions count in full. |
| `KvedSessions.SessionAnswers` | components/nvkvs/kved/kved.c:619-1242 | What the operations of a session report is what the reference reports. |
| `KvedSessions.LifeRefines` | components/nvkvs/kved/kved.c:619-1242 | Any number of sessions, each cut anywhere, boots included: the flash can always be booted, each recovered map is what the operations that count made of the map before, and the values are those of the reference. |
| `KvedSessions.PlainLife` | components/nvkvs/kved/kved.c:619-1242 | If every stale boot is followed by a compaction or by nothing, that is the plain map. |
| `KvedSessions.FinishedCounts` | components/nvkvs/kved/kved.c:619-1242 | Whatever was finished before the cut is among the operations that count, and an uncut session counts in full. |
| `KvedSessions.FirstWriteAfterBoot` | components/nvkvs/kved/kved.c:337-338 | The first value-changing write after a boot reports success; it takes effect if and only if the boot did not tombstone a half-written slot with free slots behind it. |
| `KvedSessions.CutThenWriteAgain` | components/nvkvs/kved/kved.c:1108-1114 | That state is reachable from every healthy store with two free slots: cut a write after its first step, boot, write again, and the key is gone. |
| `Kved.Store.KeyIndexFind` | components/nvkvs/kved/kved.c:400-418 | The scan returns the index of the first slot with the label, or that there is none. |
| `Kved.Store.AllLabels` | components/nvkvs/kved/kved.c:725-785 | Iterating the used indexes visits every live key exactly once. |
| `Kved.Store.DataRead` | components/nvkvs/kved/kved.c:899-924 | Returns exactly what the map lookup gives; refuses reserved keys and those no slot carries, and no others. |
| `Kved.Store.Append` | components/nvkvs/kved/kved.c:591-705 | Performs exactly the flash steps of an in-place write and updates the control block accordingly. |
| `Kved.Store.DataDelete` | components/nvkvs/kved/kved.c:936-962 | Performs exactly the delete plan; refuses reserved keys and those no slot carries, and no others. |
| `Kved.Store.SectorSwitch` | components/nvkvs/kved/kved.c:462-575 | Performs exactly the switch plan: erase, copy loop, commit, closing check. |
| `Kved.Store.CopyAll` | components/nvkvs/kved/kved.c:481-545 | The copy loop writes the packed live entries and rebuilds the string table. |
| `Kved.Store.Compact` | components/nvkvs/kved/kved.c:577-589 | Performs exactly the compaction plan. |
| `Kved.Store.DataWrite` | components/nvkvs/kved/kved.c:619-712 | Performs exactly the put plan in all its branches; refuses reserved keys and no others. |
| `Kved.Store.SectorCheck` | components/nvkvs/kved/kved.c:975-1031 | Invalidates the older of two signed sectors. |
| `Kved.Store.StringCheck` | components/nvkvs/kved/kved.c:1033-1085 | Checks the string signatures and recomputes the next free string entry. |
| `Kved.Store.DataCheck` | components/nvkvs/kved/kved.c:1087-1143 | The nested loops tombstone exactly the condemned slots and correct the counters. |
| `Kved.Store.ReadStats` | components/nvkvs/kved/kved.c:316-346 | Counts used, deleted and free slots and finds the first free index. |
| `Kved.Store.Init` | components/nvkvs/kved/kved.c:1155-1242 | Performs exactly the boot plan. |
| `KvedLayout.GetSectorAddr` | components/nvkvs/src/oblfr_kved_flash.c:24-50 | Falls through the cases, wrapping the count at 8 bits, to the address of the region. |
| `KvedLayout.StringRegionHolds` | components/nvkvs/src/oblfr_kved_flash.c:102-106 | A string region is exactly as large as a string table with two signatures, one pointer word per entry and room for one longest text per entry. |
| `KvedLayout.IndexRegionHolds` | components/nvkvs/kved/kved.c:316-320 | The slots of an index sector follow its two header words without gaps and end where the sector does. |
| `KvedLayout.MaskRoundsDown` | components/nvkvs/src/oblfr_kved_flash.c:27-27 | The mask rounds the partition address down to a sector boundary, for every power of two. |
| `KvedLayout.RegionsAligned` | components/nvkvs/src/oblfr_kved_flash.c:24-50 | Each region starts on a sector boundary. |
| `KvedLayout.RegionsApart` | components/nvkvs/src/oblfr_kved_flash.c:24-112 | In flash sectors: erasing any region never reaches another if and only if the running sector count fits 8 bits. |
| `KvedLayout.RegionsDisjoint` | components/nvkvs/src/oblfr_kved_flash.c:24-112 | The same for the 32-bit addresses that erasing touches. |
| `KvedLayout.InitAccepts` | components/nvkvs/src/oblfr_kved_flash.c:114-133 | Init accepts a driver if and only if its entries, 16 bytes each, fit a flash sector, and takes as many as fit if none are asked for. |
| `KvedLayout.AcceptedIsSmall` | components/nvkvs/src/oblfr_kved_flash.c:114-133 | No driver that init accepts, with strings as long as the settings allow, counts more than 22 sectors. |
| `KvedLayout.AcceptedIsDisjoint` | components/nvkvs/src/oblfr_kved_flash.c:114-133 | So for every driver that init accepts, erasing a region covers it and touches no address of another. |
| `KconfigStable.ExprReads` | tools/kconfig/kconfiglib.py:3466-3525 | Evaluation of an expression consults only its items. |
| `KconfigStable.VisReads` | tools/kconfig/kconfiglib.py:6286-6313 | A visibility consults what the item refers to, MODULES, and, for a choice symbol, its choice. |
| `KconfigStable.TriReads` | tools/kconfig/kconfiglib.py:4428-4513 | A value consults what the symbol refers to, MODULES, its own visibility and, for a choice symbol, the selection. |
| `KconfigStable.SelReads` | tools/kconfig/kconfiglib.py:5424-5453 | A selection consults what the choice refers to, its own mode, and the visibilities of its symbols and of the symbols of its defaults. |
| `KconfigStable.VisStable` | tools/kconfig/kconfiglib.py:6286-6313 | A visibility does not change unless something it consulted changed, short-circuits included. |
| `KconfigStable.TriStable` | tools/kconfig/kconfiglib.py:4428-4513 | The same for symbol values. |
| `KconfigStable.SelStable` | tools/kconfig/kconfiglib.py:5424-5453 | The same for choice selections. |
| `KconfigInvalidate.VisibilityIsFlag` | tools/kconfig/kconfiglib.py:4875-4879 | An item with any non-constant value cached has its visibility cached. |
| `KconfigInvalidate.ReadsSurvive` | tools/kconfig/kconfiglib.py:4875-4892 | If all that is read is referred to, the early stop is safe: whatever a surviving cache entry consulted has survived too. |
| `KconfigInvalidate.SurvivorsOk` | tools/kconfig/kconfiglib.py:4875-4892 | Entries that survive an invalidation are right under the new user values. |
| `KconfigInvalidate.Reassigned` | tools/kconfig/kconfiglib.py:4558-4654 | Then, after changing the user values of one item and invalidating it, every cached value equals uncached evaluation. |
| `KconfigInvalidate.SelectedAgain` | tools/kconfig/kconfiglib.py:4633-4641 | And for a choice symbol set to y it is enough to invalidate the choice. |
| `KconfigInvalidate.LostIsReached` | tools/kconfig/kconfiglib.py:4865-4894 | In every configuration, a cached entry is lost if and only if its item is reached from the invalidated one through dependents with a cached visibility, or MODULES is. |
| `KconfigInvalidate.RightIfReached` | tools/kconfig/kconfiglib.py:4865-4894 | So, in every configuration, after new user values and the invalidation all that is cached is right if and only if every cached entry whose value changed is reached. |
| `KconfigMissed.DefaultIsMissed` | tools/kconfig/kconfiglib.py:5440-5453 | A choice in y mode comes down to a default whose symbol an assignment makes invisible, and the assignment does not reach the choice: the cached selection stays, and is wrong. |
| `KconfigMissed.ChoiceSymbolIsMissed` | tools/kconfig/kconfiglib.py:4633-4641 | The selection goes from a cached choice symbol to another and the symbol is not reached: it stays y, and is wrong. |
| `KconfigMissed.OutsideDefaultIsMissed` | tools/kconfig/kconfiglib.py:3849-3853 | An input for the first, with a default outside the choice, which only gets a warning: cache, assignment, invalidation and the wrong selection. |
| `KconfigMissed.OutsidePromptIsMissed` | tools/kconfig/kconfiglib.py:3867-3876 | An input for the second, with a choice symbol prompted outside its choice only: two symbols of one choice are y. |
| `KconfigCache.Evaluator.ExprValue` | tools/kconfig/kconfiglib.py:5988-6012 | Returns the uncached value of the expression and keeps the cache right. |
| `KconfigCache.Evaluator.Mode` | tools/kconfig/kconfiglib.py:5190-5208 | Returns the uncached mode of a choice. |
| `KconfigCache.Evaluator.TypeIsBool` | tools/kconfig/kconfiglib.py:4274-4284 | Returns whether the symbol is currently a bool. |
| `KconfigCache.Evaluator.Visibility` | tools/kconfig/kconfiglib.py:4517-4523 | Returns the uncached visibility and caches it. |
| `KconfigCache.Evaluator.SymVisibility` | tools/kconfig/kconfiglib.py:6286-6313 | Computes the uncached visibility of a symbol. |
| `KconfigCache.Evaluator.TriValue` | tools/kconfig/kconfiglib.py:4428-4513 | Returns the uncached value of a symbol and caches it. |
| `KconfigCache.Evaluator.Selection` | tools/kconfig/kconfiglib.py:5236-5242 | Returns the uncached selection of a choice and caches it. |
| `KconfigCache.Evaluator.SelectionFromDefaults` | tools/kconfig/kconfiglib.py:5440-5453 | Returns the first visible default, else the first visible symbol. |
| `KconfigCache.Evaluator.InvalidateAll` | tools/kconfig/kconfiglib.py:3541-3549 | Clears every defined symbol and choice and nothing else. |
| `KconfigCache.Evaluator.RecInvalidate` | tools/kconfig/kconfiglib.py:4865-4894 | Terminates because each visited item loses its cached visibility; leaves no dependent of an invalidated item with one, and loses nothing that is not reached. |
| `KconfigCache.Evaluator.SetValue` | tools/kconfig/kconfiglib.py:4558-4645 | Stores valid values only. In every configuration the cache is right afterwards if and only if every cached entry whose value changed was reached; if all that is read is referred to, it is. |
| `KconfigCache.Evaluator.UnsetValue` | tools/kconfig/kconfiglib.py:4647-4654 | Removes the user value; the cache as above. |
| `KconfigCache.Evaluator.SetMode` | tools/kconfig/kconfiglib.py:5244-5283 | The same for the mode of a choice. |
| `KconfigCache.Evaluator.UnsetMode` | tools/kconfig/kconfiglib.py:5285-5292 | Removes mode and selection of a choice; the cache as above. |
| `KconfigCache.Evaluator.UnsetValues` | tools/kconfig/kconfiglib.py:1990-2006 | Leaves no user value at all, of any symbol or choice. |
| `KconfigCache.Evaluator.Perform` | tools/kconfig/kconfiglib.py:4428-4912 | In a configuration in which all that is read is referred to, any sequence of assignments and reads answers as if every value were recomputed from scratch. |
| `KconfigValue.UserValueCounts` | tools/kconfig/kconfiglib.py:4456-4460 | Outside choices a value assigned to a visible symbol counts, limited by the visibility, raised by selects, m becoming y where it cannot stay m. |
| `KconfigValue.DefaultCounts` | tools/kconfig/kconfiglib.py:4462-4486 | Otherwise the first default whose condition is not n counts, limited by that condition, raised by implies if the direct dependencies are met, then as before. |
| `KconfigValue.NoDefaultCounts` | tools/kconfig/kconfiglib.py:4462-4486 | And without such a default, implies and selects alone. |
| `KconfigValue.SelectsCount` | tools/kconfig/kconfiglib.py:4478-4492 | A symbol is never below its selects, nor below implies that are met unless the user has set it; m is left to tristates that are not implied to y. |
| `KconfigValue.VisibilityOfSymbol` | tools/kconfig/kconfiglib.py:6286-6313 | A symbol outside choices is as visible as its best prompt, m meaning y unless it is tristate at the moment. |
| `KconfigValue.VisibilityInChoice` | tools/kconfig/kconfiglib.py:6299-6306 | A symbol of a choice besides is invisible with m in y mode, and, if it is no tristate, in a tristate choice outside y mode. |
| `KconfigValue.VisibilityOfChoice` | tools/kconfig/kconfiglib.py:6286-6313 | A choice is as visible as its best prompt, m meaning y unless it is tristate at the moment. |
| `KconfigValue.ModeMeans` | tools/kconfig/kconfiglib.py:5190-5208 | The mode never exceeds the visibility; it is n exactly for an invisible choice or an optional one nobody asks for, and y exactly if that is visible and asked for or m is not possible. |
| `KconfigValue.SelectionMeans` | tools/kconfig/kconfiglib.py:5424-5453 | No selection outside y mode; the symbol of the user while it is visible; otherwise that of the first default that holds with a visible symbol, or else the first visible symbol. |
| `KconfigValue.ValueInChoice` | tools/kconfig/kconfiglib.py:4494-4504 | Of the symbols of a choice exactly the selection is y, and exactly those visible with m that the user has set are m. |
| `KconfigValue.ModeBounds` | tools/kconfig/kconfiglib.py:5039-5041 | The mode bounds the visibilities and the values of the symbols of a choice, if it bounds their prompts, as KconfigDeps.ChoiceBoundsPrompt says it does. |
| `KconfigAssign.SetThenRead` | tools/kconfig/kconfiglib.py:4558-4645 | What is set on a visible symbol is read, limited by the visibility and raised by the selects there were before. |
| `KconfigAssign.SetIsRead` | tools/kconfig/kconfiglib.py:4558-4645 | Without selects it is read as set if and only if it is within the visibility and, if m, can stay m, or is the y that m is promoted to. |
| `KconfigAssign.UnsetThenDefault` | tools/kconfig/kconfiglib.py:4647-4654 | After unsetting, the default that applied before counts. |
| `KconfigAssign.UnsetThenNone` | tools/kconfig/kconfiglib.py:4647-4654 | And if none applied, implies and selects alone. |
| `KconfigAssign.SetThenSelected` | tools/kconfig/kconfiglib.py:4633-4641 | Setting a visible symbol of a choice in y mode to y makes it the selection, and the one symbol of the choice that is y. |
| `KconfigAssign.SetModeThenRead` | tools/kconfig/kconfiglib.py:5244-5283 | The mode set on a choice is the mode read, within its visibility and what its type allows. |
| `KconfigAssign.UnsetModeThenRead` | tools/kconfig/kconfiglib.py:5285-5292 | Taken back, an optional choice is off, and the selection is the one by default. |
| `KconfigAssign.OthersKeep` | tools/kconfig/kconfiglib.py:4558-4654 | No assignment touches what the user gave to any other symbol or choice. |
| `KconfigNet.LoopGoesBack` | tools/kconfig/kconfiglib.py:6559-6665 | A loop that the search leaves over leads from a choice symbol back to an earlier symbol of its choice. |
| `KconfigNet.SweptIsAcyclic` | tools/kconfig/kconfiglib.py:6559-6665 | So without such a walk, what the search has left has no dependency loop. |
| `KconfigNet.AcyclicGoesNotBack` | tools/kconfig/kconfiglib.py:6634-6650 | And such a walk always makes a loop. |
| `KconfigSearch.SymRunGood` | tools/kconfig/kconfiglib.py:6559-6632 | From a symbol the search either leaves it behind all its dependents, its choice with it, or collects a genuine chain back to an item on the call stack, or has found a loop. |
| `KconfigSearch.ChoiceRunGood` | tools/kconfig/kconfiglib.py:6634-6665 | The same from a choice: its symbols but the one it was entered by are left in their order, each at a point that parts no choice left before. |
| `KconfigLoop.CheckDecides` | tools/kconfig/kconfiglib.py:1117-1120 | The check passes and no choice symbol leads back to an earlier one of its choice, if and only if there is no dependency loop; what is raised is one. |
| `KconfigLoop.LoopChecker.CheckSym` | tools/kconfig/kconfiglib.py:6559-6632 | Performs exactly the search from a symbol, choices included. |
| `KconfigLoop.LoopChecker.CheckChoice` | tools/kconfig/kconfiglib.py:6634-6665 | Performs exactly the search from a choice, skipping the symbol it was entered by. |
| `KconfigLoop.LoopChecker.Found` | tools/kconfig/kconfiglib.py:6668-6714 | Extends the chain, or raises at its start. |
| `KconfigLoop.LoopChecker.CheckAll` | tools/kconfig/kconfiglib.py:1117-1120 | Passes with no walk back if and only if there is no loop; a loop is never left half collected; what is raised is a simple loop of defined items. |
| `KconfigRank.AcyclicRanks` | tools/kconfig/kconfiglib.py:6559-6665 | Without a dependency loop, choices included, and with MODULES settled, evaluation can be ranked. |
| `KconfigRank.RankedIsAcyclic` | tools/kconfig/kconfiglib.py:6559-6632 | Conversely, without choices, a rank rules out loops and settles MODULES. |
| `KconfigRank.CheckConfig` | tools/kconfig/kconfiglib.py:1117-1120 | If the check passes, no choice symbol leads back to an earlier one, and nothing MODULES depends on is tristate, evaluation can be ranked; without choices, if and only if. |
| `KconfigRank.ChoicesCanBeRanked` | tools/kconfig/kconfiglib.py:3515-3549 | A configuration with a tristate choice that is ranked and in which all that is read is referred to. |
| `KconfigBlind.LoopIsNotSeen` | tools/kconfig/kconfiglib.py:6634-6650 | A choice of three symbols, the second depending on a symbol that depends on the third: the check passes, there is a loop, and evaluation cannot be ranked. |
| `KconfigParse.ParsesTheGrammar` | tools/kconfig/kconfiglib.py:3385-3394 | A line is accepted with result e if and only if some tree of the grammar yields it and denotes e. |
| `KconfigParse.Unambiguous` | tools/kconfig/kconfiglib.py:3385-3394 | All trees of a line denote the same expression. |
| `KconfigParse.LineMeans` | tools/kconfig/kconfiglib.py:3426-3440 | An accepted line is what some tree yields, and under every assignment evaluates to what the tree is worth as written: || the greater, && the lesser, ! the complement, and a plain m no more than MODULES is. |
| `KconfigParse.CompleteE` | tools/kconfig/kconfiglib.py:3376-3415 | The parser consumes exactly the tokens of a tree and returns what the tree denotes. |
| `KconfigParse.SoundE` | tools/kconfig/kconfiglib.py:3376-3415 | Whatever the parser returns comes from a tree yielding the consumed tokens. |
| `KconfigParse.Parser.ParseExpr` | tools/kconfig/kconfiglib.py:3376-3415 | The token-index parser agrees with the parsing function and moves the index past what it parsed. |
| `KconfigParse.Parser.ParseAndExpr` | tools/kconfig/kconfiglib.py:3417-3424 | The same for && chains. |
| `KconfigParse.Parser.ParseFactor` | tools/kconfig/kconfiglib.py:3426-3460 | The same for symbols, relations, negations and parentheses; the index never runs past the end marker. |
| `KconfigParse.Parser.ExpectExprAndEol` | tools/kconfig/kconfiglib.py:2579-2585 | Accepts exactly the lines some tree yields, nothing being left over, and what it returns evaluates to what that tree is worth. |
| `KconfigPrint.RoundTrip` | tools/kconfig/kconfiglib.py:6060-6101 | Parsing the printed tokens gives the expression back with chains re-associated to the right, m rewritten exactly where asked. |
| `KconfigPrint.NoParentheses` | tools/kconfig/kconfiglib.py:6060-6101 | Parentheses are printed exactly where && and || meet and behind ! in front of anything but a symbol: an expression prints without any if and only if it is one chain of simple operands. |
| `KconfigPrint.NormMeansTheSame` | tools/kconfig/kconfiglib.py:5988-6012 | Re-association changes neither the value under any assignment nor what short-circuiting consults. |
| `KconfigPrint.PrintThenParseMeansTheSame` | tools/kconfig/kconfiglib.py:6335-6340 | Printing and parsing back preserves the value under every assignment. |
| `KconfigPrint.SecondPassIsExact` | tools/kconfig/kconfiglib.py:6060-6101 | On expressions that have been through it once, the round trip is exact. |
| `KconfigDeps.SimplifiedMeansTheSame` | tools/kconfig/kconfiglib.py:2863-2889 | The y/n simplifications of && and || change no value. |
| `KconfigDeps.EvaluationAgrees` | tools/kconfig/kconfiglib.py:5988-6018 | Short-circuiting evaluation agrees with plain minimum, maximum and complement. |
| `KconfigDeps.RelationsMean` | tools/kconfig/kconfiglib.py:6037-6042 | Each of the six relations is y or n by the order of the values of its operands. |
| `KconfigDeps.ConnectivesMean` | tools/kconfig/kconfiglib.py:5988-6018 | && is the greatest value below both operands, || the least above them, and ! turns the order around and undoes itself. |
| `KconfigDeps.Menus.PropagateDeps` | tools/kconfig/kconfiglib.py:3637-3685 | Updates exactly the children, each as the loop body prescribes. |
| `KconfigDeps.Menus.FinalizeAll` | tools/kconfig/kconfiglib.py:3602-3618 | From the top node, every node below is finished. |
| `KconfigDeps.Menus.FinalizeNode` | tools/kconfig/kconfiglib.py:3602-3618 | Finishes everything below a node: prompts, defaults, ranges, selects and implies carry what holds around them. |
| `KconfigDeps.PromptCondition` | tools/kconfig/kconfiglib.py:3602-3685 | A final prompt condition evaluates to the least of its own condition, the visible-ifs around it and the dependencies that count, under every assignment. |
| `KconfigDeps.ChoiceBoundsPrompt` | tools/kconfig/kconfiglib.py:3640-3648 | Under every assignment a final prompt condition is no more than the mode of the innermost choice around it. |
| `KconfigDeps.DepsAreWhatCounts` | tools/kconfig/kconfiglib.py:3640-3648 | The dependencies that count are the own ones and those out to the innermost enclosing choice, which contributes its mode instead. |
| `KconfigDeps.VisibleIsWhatHides` | tools/kconfig/kconfiglib.py:3602-3605 | The visible-ifs that count are those of all menus around. |
| `KconfigShape.FlatKeepsOrder` | tools/kconfig/kconfiglib.py:6476-6502 | Splicing promptless nodes up keeps the preorder of all nodes. |
| `KconfigShape.FlatIsFlat` | tools/kconfig/kconfiglib.py:6476-6502 | Afterwards no spliceable node of the list has children. |
| `KconfigShape.FlatKeepsTrees` | tools/kconfig/kconfiglib.py:6476-6502 | Any other node is in the result, with all its children, if and only if all nodes above it in the list were spliced. |
| `KconfigShape.KeptCounts` | tools/kconfig/kconfiglib.py:6505-6528 | Dropping if nodes drops these and nothing else. |
| `KconfigShape.FilterCounts` | tools/kconfig/kconfiglib.py:6505-6528 | So does the filter that the orders of nodes are compared by. |
| `KconfigShape.TidyIsFlat` | tools/kconfig/kconfiglib.py:3609-3613 | Among the children of a finished node there is no if, and none without prompt that has children. |
| `KconfigShape.AbsorbsDependents` | tools/kconfig/kconfiglib.py:3585-3600 | A symbol takes exactly the run of following siblings that depend on it. |
| `KconfigShape.NodeTakes` | tools/kconfig/kconfiglib.py:3581-3600 | A finished symbol leaves no sibling behind it that depends on it; any other node leaves all its siblings. |
| `KconfigShape.KeptKeepsOrder` | tools/kconfig/kconfiglib.py:6505-6528 | Dropping childless if nodes keeps the order of the rest. |
| `KconfigShape.NodeKeepsOrder` | tools/kconfig/kconfiglib.py:3581-3624 | A finished node with the siblings it has not taken has the nodes that are no if, in their original preorder; implicit menus, splicing and dropping together. |
| `KconfigShape.NodeAddsNone` | tools/kconfig/kconfiglib.py:3581-3624 | Finishing a node duplicates none. |
| `KconfigMenu.Menu.Flatten` | tools/kconfig/kconfiglib.py:6476-6502 | The pointer surgery produces the flattened list, touching no other node, and terminates. |
| `KconfigMenu.Menu.RemoveIfs` | tools/kconfig/kconfiglib.py:6505-6528 | The pointer surgery produces the list without its if nodes, touching no other node. |
| `KconfigMenu.Menu.AbsorbSiblings` | tools/kconfig/kconfiglib.py:3581-3600 | The following siblings that depend on a symbol are finished, reparented and cut out of their list as its children. |
| `KconfigMenu.Menu.FinishNode` | tools/kconfig/kconfiglib.py:3581-3624 | Implicit menu or children first, then flatten and remove, over the whole linked tree. |
| `KconfigMenu.Menu.NodeIter` | tools/kconfig/kconfiglib.py:1934-1956 | The parent-pointer walk yields exactly the recursive preorder, each node once. |
| `KconfigMenu.Menu.FinishAndIterate` | tools/kconfig/kconfiglib.py:1934-1956 | Finishing and walking the tree gives the original preorder without the if nodes. |
| `KconfigQuote.MatchIsExact` | tools/kconfig/kconfiglib.py:7160-7160 | The literal matcher returns contents c if and only if the line starts with a literal whose contents are c. |
| `KconfigQuote.UnescapeUndoes` | tools/kconfig/kconfiglib.py:6176-6194 | Unescaping undoes the two-pass escaping, for every string. |
| `KconfigQuote.UnescapesWhatIsSpelled` | tools/kconfig/kconfiglib.py:6186-6194 | The contents of a literal unescape to a string if and only if they spell it, any of its characters but newlines being escaped and backslashes and quotes always. |
| `KconfigQuote.EscapeIsShortest` | tools/kconfig/kconfiglib.py:6176-6183 | Escaping gives the one shortest spelling. |
| `KconfigQuote.StringRoundTrip` | tools/kconfig/kconfiglib.py:1313-1322 | Whatever follows on the line, the matcher stops at the closing quote of a written value, and unescaping gives the value. |
| `Timer.InsertKeepsOrder` | components/timer/oblfr_timer.c:84-106 | Inserting behind all timers that are no later keeps the list sorted by deadline. |
| `Timer.PutBack` | components/timer/oblfr_timer.c:133-145 | Putting a periodic timer back while the cursor moves to its old successor keeps everything a pass relies on. |
| `Timer.FaithfulAt` | components/timer/oblfr_timer.c:121-148 | Any two firings of a pass are in order of deadline, and each is at the deadline its timer had reached. |
| `TimerQueue.Queue.Insert` | components/timer/oblfr_timer.c:84-106 | The list walk inserts behind all timers that are no later. |
| `TimerQueue.Queue.Remove` | components/timer/oblfr_timer.c:108-119 | Takes out exactly that timer and clears its deadline. |
| `TimerQueue.Queue.Process` | components/timer/oblfr_timer.c:121-148 | A pass, the clock being read for each timer, fires timers at their successive deadlines, never early and in order, fires everything that was due on entry by the last reading, drops fired one-shots, leaves periodic timers one period later per firing in a sorted list, terminates, and leaves nothing due at the last reading if and only if the list on entry catches up by then. |
| `TimerMerge.ChasedIsFollowed` | components/timer/oblfr_timer.c:133-146 | A timer put back stays ahead of the cursor if and only if some other timer has a deadline, in merged order, between the one it fired at and its next. |
| `TimerMerge.PassDecided` | components/timer/oblfr_timer.c:121-148 | At the end of a pass nothing is due if and only if every periodic timer had, between any two of its missed deadlines, one of another timer. |
| `TimerMerge.OneWay` | components/timer/oblfr_timer.c:84-106 | The merged order of deadlines, equal ones ordered as the list orders them, is a strict order. |
| `TimerMerge.LoneTimer` | components/timer/oblfr_timer.c:133-134 | A lone periodic timer is caught up by one pass if and only if it is less than a period late. |
| `TimerMerge.PromptPassClears` | components/timer/oblfr_timer.c:121-148 | A timer less than a period late fires once and is not due after the pass. |
| `TimerMerge.PassCanLag` | components/timer/oblfr_timer.c:133-134 | Two timers, both due at 0, with periods 1 and 10: a pass at 5 does not catch up. |
| `Button.Device.Handle` | components/button/src/oblfr_button.c:77-175 | One tick: the new state and the callbacks, in order. |
| `Button.Device.HandleAll` | components/button/src/oblfr_button.c:77-175 | A run of ticks from a fresh button. |
| `Button.ReportsExactly` | components/button/src/oblfr_button.c:96-175 | The callbacks of every tick of every run, in order and each as often as it is called: PRESS_DOWN, with PRESS_REPEAT behind it within a burst; PRESS_UP; the click and PRESS_REPEAT_DONE when the time for another press is over; LONG_PRESS_START and LONG_PRESS_HOLD when due. |
| `Button.HistoryExactly` | components/button/src/oblfr_button.c:96-175 | A whole run makes exactly the calls of its ticks, and shows the event of the last one that counts. |
| `Button.DownsAreLevels` | components/button/src/oblfr_button.c:86-94 | The presses and releases these go by are those of the debounced samples, for thresholds up to 7. |
| `Button.LevelIsDebounced` | components/button/src/oblfr_button.c:86-94 | For thresholds up to 7 the level flips exactly when the last that many samples (at least one) all disagree with it. |
| `Button.EightNeverFlips` | components/button/src/oblfr_button.c:65-65 | From threshold 8 on, which the settings allow, the 3-bit counter wraps and the level never changes. |
| `Button.PressesAreEdges` | components/button/src/oblfr_button.c:96-175 | PRESS_DOWN and PRESS_UP are reported exactly at the edges of the debounced level. |
| `Button.PressesAlternate` | components/button/src/oblfr_button.c:96-175 | Over every run they alternate, beginning with PRESS_DOWN. |
| `Button.LongOnlyWhilePressed` | components/button/src/oblfr_button.c:117-121 | Long-press reports lie between a PRESS_DOWN and its PRESS_UP; the hold count is zero outside a long press. |
| `Button.BurstsEnd` | components/button/src/oblfr_button.c:96-175 | Over every run the button is idle exactly when no burst is going on. PRESS_REPEAT_DONE comes exactly one tick past the threshold after the last release; a burst ends without it if and only if its lone press had become a long one or a repeated press was not short when released. |
| `Button.ClicksCountPresses` | components/button/src/oblfr_button.c:133-144 | SINGLE_CLICK and DOUBLE_CLICK come exactly when a burst ends by that time running out and had one or two presses, modulo the 8-bit counter. |
| `Button.TwoPressesNoClick` | components/button/src/oblfr_button.c:146-156 | An input with two presses and no click: the second was held too long. |
| `Button.LongPressAt` | components/button/src/oblfr_button.c:117-121 | LONG_PRESS_START comes exactly one tick past the threshold of the first press of a burst, and never for a threshold the 16-bit tick counter cannot exceed. |
| `Button.HoldsAreCounted` | components/button/src/oblfr_button.c:159-166 | While the tick counter lasts, the hold count is one for every serial period since the press, made up for at one a tick, and reports come exactly when it grows. |

## Left out

- Strings after a power cut: a clean boot is covered by KvedReboot, and with strings in the store
  the power-loss theorems are about the number entries.
- KvedCrash.AppendSafe: number entries only; KvedCrash.AppendCut speaks of the whole index.
- KvedSessions.LifeRefines: stores of numbers. With strings, one operation at a time is covered by
  KvedMixed.OpCut; the string sector a later session finds is the subject of KvedReboot.
- String capacity, which the code does not check, is a precondition (`Room` in `KvedText`), and
  so is that a key stays a string or stays a number (`SameKind` in `KvedMap`).
- Sectors so large that indexes or string offsets leave 16 bits (`WellSized` in `KvedStrings`
  rules them out, and with them any wrap-around of the store's counters).
- Torn words: a word write or an erase is atomic. Byte writes of a text are one step.
- Mutexes, dump and print code, the RAM and file drivers, and the mixing of errors and results
  in the getters of the store.
- KvedRuns.RunRefines: not from a stale state, where KvedSessions.NumRun says what happens to
  numbers; values only, types being the subject of KvedRuns.RunRefinesTyped.
- KvedRuns.OpRefines: values only, types being the subject of KvedRuns.OpRefinesTyped.
- KconfigCache.Evaluator.SetValue: bool and tristate symbols. Int, hex and string symbols have
  the tristate value n, which is modelled, but their string values, ranges, and relations that
  compare them are not; relations compare tristates.
- KconfigDeps.EvaluationAgrees: relations compare tristate values, not strings or numbers.
- The assignable attribute and its cache entry, warnings, and the was-set flags.
- KconfigLoop.LoopChecker.CheckAll: a symbol is taken to be listed by one choice, the one it
  belongs to; the source lists a symbol that is defined in two choices in both.
- KconfigRank.CheckConfig: with choices one way only. The check works on whole items, so it also
  raises loops through conditions of choice symbols that evaluation never reads. Choices are
  referred to by their own symbols only, and their defaults are among these.
- KconfigCache.Evaluator.Perform: takes the configuration to be ranked, MODULES below every
  tristate item, as KconfigRank.CheckConfig establishes it, and to be covered. Nothing in the
  source establishes the latter: the sanity checks only warn, see KconfigMissed.
- The tokenizer and the rendering of tokens as characters: KconfigPrint.RoundTrip is about the
  sequence of tokens of the printed text.
- KconfigDeps.Menus.FinalizeNode: conditions only. The children are a tree value here, and the
  node records are updated in place; the pointers and the implicit menus, which move nodes and
  change no condition, are the subject of KconfigMenu. The copying of properties from menu nodes
  to symbols, with the building of reverse dependencies from selects, is left out.
- KconfigMenu.Menu.FinishNode: which sibling depends on a symbol is a given relation, not
  computed from the expressions.
- Kconfig file reading, the macro preprocessor, writing and loading of .config files beyond the
  string literal, and all user interfaces.
- TimerQueue.Queue.Process: the clock does not go back, and stays below some bound while the pass
  lasts (otherwise the loop need not end); callbacks leave the list alone, periods are at least
  1 ms, and deadlines are unbounded rather than 64 bits wide.
- Timer hardware, interrupt, locks, recalculation of the next alarm, and the activity query,
  which looks at the successor pointer.
- Button.Device.Handle: samples are the two levels 0 and 1.
- The LED indicator, mailbox, ADC button, Wi-Fi and board code: small tables, or registers.
