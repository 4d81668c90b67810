# easylogging++, codelength and the translation embedder, in Dafny

This project models three pieces of the Monero source tree and proves what they promise:

* **easylogging++** (`external/easylogging++`), the logging engine as modified there: the configuration store and its
  compressed typed view, the configuration text format, the category filter with its glob matcher, the Writer protocol
  over recursive logger locks, hit counters, format specifiers, and time stamps written into a bounded buffer;
* **codelength** (`external/miniupnpc/codelength.h`), a variable-length integer code with one encoder and three decoders;
* **the translation embedder** (`translations/generate_translations_header.c`), which turns files into C++ literals.

Code that works by changing things is modelled by classes, arrays and methods with loops, each tied to a function of its
inputs or of the old state. The laws are lemmas about those functions. Where a law does not hold on all inputs, the exact
condition is proved as an if-and-only-if, most of them beside a concrete input that fails: `OverlayIsExact`,
`AgreementCondition`, `SetValueCondition`, `ToFileReads`, `StreamCondition`, `OwnValueCondition`, `JoinIsConcatenation`, `EveryNIsPeriodic`,
`SpecifierLengthCondition`, `InertCondition`, `LeadingDigitsCondition`, `StampsSortCondition`, `UnquotedCondition`,
`PrefixCondition`, `SettingCondition`, `EntryCondition`, `QuotedCommentCondition`, `UnquotedSettingCondition`,
`CommentCondition`, `TypeCondition`, `LevelCondition`, `BoolCondition`, `DataCondition`, `NameCondition` and
`HeaderCondition`.

`dafny verify dfyconfig.toml` checks the whole project.

| file | subject |
|---|---|
| `Configurations.dfy`, `ConfigurationRuns.dfy` | the store, its writes, and what every run of writes keeps |
| `LogFiles.dfy`, `TypedConfigurations.dfy`, `ConfigurationValues.dfy` | files and their shared streams; the compressed maps and their agreement with the store; what values mean |
| `Text.dfy`, `ConfigurationNames.dfy`, `ConfigurationText.dfy`, `Spellings.dfy` | the text format: the parser, and the names it knows |
| `QuotedValues.dfy`, `ConfigurationPrinting.dfy`, `UnquotedSettings.dfy` | what of a line comes back: values in quotes, settings with them, settings without |
| `SettingComments.dfy`, `PrintedEntries.dfy` | comments behind settings, and whole texts |
| `Levels.dfy`, `WildCard.dfy`, `Categories.dfy` | level names, the glob matcher, the category filter |
| `WriterProtocol.dfy`, `WriterSafety.dfy`, `WriterProgress.dfy`, `WriterAnswers.dfy` | the Writer protocol as steps of threads, safety of all runs, why they end, and what is sent |
| `HitCounters.dfy` | every-N, after-N and N-times |
| `FormatSpecifiers.dfy`, `FormatTokens.dfy`, `FormatPasses.dfy`, `LogLines.dfy` | escapes and replacement of one format specifier, of any table of them, and of those of the library |
| `DateTime.dfy`, `Timestamps.dfy`, `DateFields.dfy` | bounded rendering of dates, the order of stamps, and what each specifier stands for |
| `Codelength.dfy` | the length code |
| `Embedder.dfy`, `EmbeddedHeader.dfy` | emitted literals with a reader for them, the lookup, and the whole header |
| `HeaderReader.dfy`, `HeaderTails.dfy`, `EmbeddedLookup.dfy` | a reader of such headers, what it leaves behind, and what is found in the end |
| `Arithmetic.dfy`, `Options.dfy` | quotients and remainders; a value or none |

## Where code and documentation disagree

The model follows the code.

* The header comment on `Configurations::set` says that subsecond precision and performance tracking are ignored unless set
  for Global. `build` takes the last entry of any level (`LastEntryDecides`), which after setToDefault is Info's
  (`CloserDecides`). When the comment is right all the same is `OwnValueCondition`; `InfoOverrulesGlobal` is a case where it
  is not.
* The full month table spells the fourth month `Apri`.
* `setValue` alone is not last-write-wins: writing Global's value to a level that has another one is dropped
  (`SetValueCondition`). `build` starts from empty maps and sees each key once, but files without a stream go through the
  same function, with the effect that `ToFileReads` and `FailureIsDropped` state.
* `build` puts a null stream at Global before it opens files, and std::map::insert keeps it. A file named for Global is
  therefore opened and lost, and levels that share its name are turned off (`GlobalFileTurnsOthersOff`).

## Model

| member | source | states |
|---|---|---|
| `ConfigurationStore.Configurations.Find` | external/easylogging++/easylogging++.h:1580-1586 | the position of the first entry with that level and type, or the end of the list |
| `ConfigurationStore.Configurations.UnsafeSet` | external/easylogging++/easylogging++.cc:487-497 | the new list is the old one with that key overwritten in place or appended, and the other seven levels written after it when the level is Global |
| `ConfigurationStore.Configurations.UnsafeSetGlobally` | external/easylogging++/easylogging++.cc:511-521 | the whole new list after the fan-out over forEachLevel, with or without Global itself |
| `ConfigurationStore.Configurations.Set` | external/easylogging++/easylogging++.cc:283-289 | the same new list as the unsafe form: the second fan-out of `set` changes nothing |
| `ConfigurationStore.Configurations.SetGlobally` | external/easylogging++/easylogging++.cc:499-509 | the same new list as unsafeSetGlobally, though every level goes through `set` |
| `ConfigurationStore.Configurations.UnsafeSetIfNotExist` | external/easylogging++/easylogging++.cc:480-485 | writes only where the key has no entry yet |
| `ConfigurationStore.Configurations.SetFromBase` | external/easylogging++/easylogging++.cc:250-258 | the base entries written one by one, in their order; nothing for a null base or for itself |
| `ConfigurationStore.Configurations.SetToDefault` | external/easylogging++/easylogging++.cc:298-324 | the list after the nine global defaults and the five formats |
| `ConfigurationStore.GetAfterPut` | external/easylogging++/easylogging++.cc:487-497 | one entry written: read back at its key, every other key reads as before |
| `ConfigurationStore.GetAfterFanOut` | external/easylogging++/easylogging++.cc:511-521 | after k turns of the fan-out exactly the first k levels of that type read the value |
| `ConfigurationStore.GetAfterSet` | external/easylogging++/easylogging++.cc:283-289 | a write at Global is read back at all eight levels, any other write at its own level only, and no other key changes |
| `ConfigurationStore.GetAfterSetIfMissing` | external/easylogging++/easylogging++.cc:480-485 | a missing key that is written is read back at every level it reaches; a key that is there, and every other one, reads as before |
| `ConfigurationStore.PutExtends` | external/easylogging++/easylogging++.cc:487-497 | an entry write moves no key, adds keys of its own type at the end only, and keeps keys unique |
| `ConfigurationStore.SetExtends` | external/easylogging++/easylogging++.cc:283-289 | the same for `set` with its fan-out |
| `ConfigurationStore.FanOutTwice` | external/easylogging++/easylogging++.cc:283-289 | fanning out twice is fanning out once |
| `ConfigurationRuns.DefaultsRead` | external/easylogging++/easylogging++.cc:298-324 | what every level reads of every type after setToDefault: the five level-specific formats, and otherwise the same default at all levels |
| `ConfigurationRuns.LastTouchWins` | external/easylogging++/easylogging++.cc:250-258 | after setFromBase a level reads the value of the last base entry that reaches it, directly or through Global |
| `ConfigurationRuns.UntouchedIsKept` | external/easylogging++/easylogging++.cc:250-258 | keys that no base entry reaches are unchanged |
| `ConfigurationRuns.OverlayIsExact` | external/easylogging++/easylogging++.cc:250-258 | setFromBase with a base of unique keys is an exact overlay of a type (base value, else base Global value, else old value) if and only if no Global entry of the base overwrites a different earlier one of that type |
| `ConfigurationRuns.SetKeepsComplete` | external/easylogging++/easylogging++.cc:283-289 | `set` keeps: one entry per key, every level has a value of every type, and the Global entry of a type comes first |
| `ConfigurationRuns.FanOutKeepsComplete` | external/easylogging++/easylogging++.cc:499-509 | setGlobally without Global keeps it |
| `ConfigurationRuns.OverlayKeepsComplete` | external/easylogging++/easylogging++.cc:250-258 | setFromBase keeps it, whatever the base |
| `ConfigurationRuns.RunKeepsComplete` | external/easylogging++/easylogging++.cc:283-324 | every sequence of set, setGlobally, setFromBase and unsafeSetIfNotExist keeps it |
| `ConfigurationRuns.DefaultsAreComplete` | external/easylogging++/easylogging++.cc:298-324 | setToDefault on an empty store establishes it |
| `ConfigurationRuns.EveryRunIsComplete` | external/easylogging++/easylogging++.cc:283-324 | it holds after setToDefault followed by any run of writes |
| `ConfigurationRuns.GetAfterOverlay` | external/easylogging++/easylogging++.cc:250-258 | what a level reads after setFromBase: the last base entry that reaches it, or else what it read before |
| `ConfigurationRuns.RunLeavesLastWritten` | external/easylogging++/easylogging++.cc:283-324 | after setToDefault and any run of writes a level reads the last value that reached it, directly, through Global or from a base, or else its default |
| `ConfigurationRuns.EveryRunIsClosed` | external/easylogging++/easylogging++.cc:298-324 | in every such store the last entry of a type is the one for Info, or for Unknown where somebody wrote that |
| `ConfigurationRuns.OverlayLosesTrace` | external/easylogging++/easylogging++.cc:250-258 | a store in which Trace was written before Global: copied with setFromBase, Trace reads true although it is configured as false |
| `TypedConfigurations.TypedConfigurations.constructor` | external/easylogging++/easylogging++.cc:1606-1652 | the whole object: eight maps are the fold of setValue over the entries of their type, in list order; file names, streams and the shared map of streams are what insertFile leaves of them, and ToFile is off where it got a null stream |
| `TypedConfigurations.TypedConfigurations.Enter` | external/easylogging++/easylogging++.cc:1614-1645 | one turn of the first loop, all eight maps |
| `TypedConfigurations.TypedConfigurations.InsertFile` | external/easylogging++/easylogging++.cc:1714-1757 | the three file maps and ToFile after one file: a name that is known shares its stream, a new one is opened, what the map of streams then holds for the level is recorded under the name, and a null stream turns ToFile off |
| `TypedConfigurations.TypedConfigurations.InsertFiles` | external/easylogging++/easylogging++.cc:1646-1652 | the second loop: the same for all files in list order |
| `TypedConfigurations.BuildIsFaithful` | external/easylogging++/easylogging++.h:2061-2081 | when the first entry of a type and its Global entry parse alike, the compressed map holds that value at Global and every differing level under its own key |
| `TypedConfigurations.FirstIsNotStored` | external/easylogging++/easylogging++.h:2061-2081 | a first entry that is not for Global goes to Global and is missing under its own level |
| `TypedConfigurations.GlobalIsStored` | external/easylogging++/easylogging++.h:2061-2081 | the entry for Global always ends up at Global |
| `TypedConfigurations.AgreementCondition` | external/easylogging++/easylogging++.h:2028-2081 | lookups with Global fallback return the configured value of every level if and only if the first entry of the type parses like the entry for Global |
| `TypedConfigurations.TraceFirstDisagrees` | external/easylogging++/easylogging++.h:2061-2081 | a store on which they do not: Trace, written before Global, is configured as false and read as true |
| `TypedConfigurations.DifferentOnly` | external/easylogging++/easylogging++.h:2061-2081 | of a store with Global first the map keeps a level only where it differs from Global |
| `TypedConfigurations.CompleteStoreAgrees` | external/easylogging++/easylogging++.h:2028-2081 | on a store with Global first, for the five types that are kept per level, every level reads its configured value |
| `TypedConfigurations.EveryRunAgrees` | external/easylogging++/easylogging++.cc:1606-1645 | for those five types: after setToDefault and any run of set, setGlobally, setFromBase and unsafeSetIfNotExist, `build` and lookup give exactly the parsed value last written to the level |
| `TypedConfigurations.SetValueCondition` | external/easylogging++/easylogging++.h:2061-2081 | a value written with setValue is read back if and only if Global does not hold it already, or the level has no value or the same value |
| `TypedConfigurations.FailureIsDropped` | external/easylogging++/easylogging++.cc:1748-1752 | a store for which a failing file is not noticed: ToFile off for Global and on for Info leaves Info on |
| `TypedConfigurations.ToFileReads` | external/easylogging++/easylogging++.cc:1714-1757 | after the files were tried a level reads ToFile as on if and only if it is configured on and, where Global is on too, neither its own file nor that of Global got a null stream |
| `TypedConfigurations.LastEntryDecides` | external/easylogging++/easylogging++.cc:1632-1636 | subsecond precision and performance tracking take the last entry of any level |
| `TypedConfigurations.GlobalIsOnlyKey` | external/easylogging++/easylogging++.cc:1632-1636 | those two maps have no key but Global |
| `TypedConfigurations.CloserDecides` | external/easylogging++/easylogging++.cc:1632-1636 | after setToDefault and any run of writes every level reads of those two types what Info is configured as, or Unknown where that was written |
| `TypedConfigurations.OwnValueCondition` | external/easylogging++/easylogging++.cc:1632-1636 | unless something was written for Unknown: a level reads its own value if and only if that parses like the one of Info, and the documented rule that Global decides holds if and only if the value of Global does |
| `TypedConfigurations.InfoOverrulesGlobal` | external/easylogging++/easylogging++.cc:1632-1636 | one write of precision 6 at Info: Global stays configured as 3 and every level reads 6 |
| `TypedConfigurations.BuiltObjectAgrees` | external/easylogging++/easylogging++.cc:1606-1652 | the main theorem on the object: after setToDefault, any run of writes and `build`, the five maps that are kept per level read the parsed value last written to each level (ToFile as far as streams could be had), and formats are read with the level they are for |
| `TypedConfigurations.BuiltObjectReadsInfo` | external/easylogging++/easylogging++.cc:1606-1652 | and the maps of subsecond precision and performance tracking read, at every level, the value last written to Info, unless something was written for Unknown |
| `TypedConfigurations.FormatAfterRun` | external/easylogging++/easylogging++.cc:1629-1631 | every level keeps a format of its own: it reads the one last written to it, made for that level |
| `TypedConfigurations.FailuresAreLocal` | external/easylogging++/easylogging++.cc:1732-1757 | whether a file gets a null stream depends on its name, the streams opened before, the disk and the name of the file of Global, and on no other file |
| `TypedConfigurations.BuiltObjectFiles` | external/easylogging++/easylogging++.cc:1732-1757 | the name and the stream that every level reads from the object; that of Global is null whether its file opens or not |
| `TypedConfigurations.StreamCondition` | external/easylogging++/easylogging++.cc:1747-1752 | a level other than Global that reads ToFile as on has a stream for its file if and only if it is not the case that it is on, Global is off and the stream is null |
| `TypedConfigurations.GlobalFileTurnsOthersOff` | external/easylogging++/easylogging++.cc:1612-1757 | after setToDefault and one file name for Global, with a file that opens: Global stays on, all other levels are off and nobody has a stream |
| `TypedConfigurations.LevelFilesAreShared` | external/easylogging++/easylogging++.cc:1612-1757 | the same name for all levels but Global: every level is on and all share one stream |
| `LogFiles.TakenIs` | external/easylogging++/easylogging++.cc:1732-1746 | the stream that insertFile gets for a file, in terms of what was opened before the loop and of the file of Global alone |
| `LogFiles.FilesTracked` | external/easylogging++/easylogging++.cc:1732-1757 | what the three maps hold after any prefix of the loop, where the file of Global comes first: a stream that Global opened is lost, and its name stands for a null stream from then on |
| `WildCard.WildCardMatch` | external/easylogging++/easylogging++.cc:804-826 | the recursive matcher with its loop returns true exactly when the string can be cut into pieces that fit the pattern characters: any piece for `*`, one character for `?` and for itself |
| `WildCard.EmptyPattern` | external/easylogging++/easylogging++.cc:804-826 | only the empty string matches the empty pattern |
| `WildCard.SingleStep` | external/easylogging++/easylogging++.cc:804-826 | a pattern starting with `?` or a plain character consumes one character |
| `WildCard.StarStep` | external/easylogging++/easylogging++.cc:804-826 | a pattern starting with `*` consumes nothing or one character and goes on |
| `WildCard.LiteralMatchesItself` | external/easylogging++/easylogging++.cc:804-826 | a pattern without `*` and `?` matches exactly itself |
| `WildCard.StarMatchesAll` | external/easylogging++/easylogging++.cc:804-826 | the pattern of one star matches every string |
| `Levels.LevelFromPrefix` | external/easylogging++/easylogging++.cc:88-106 | a level read from a prefix has a name no longer than the text, so that the cursor stays inside |
| `Levels.NameIsRead` | external/easylogging++/easylogging++.cc:50-106 | a level name followed by any text is read as that level |
| `Levels.CommaEndsName` | external/easylogging++/easylogging++.cc:88-106 | what follows a comma has no influence on the level read before it |
| `Categories.VRegistry.SetCategories` | external/easylogging++/easylogging++.cc:1960-2009 | the stored rules are the old ones (or none) followed by the rules scanned from the text, and the stored string is the comma-joined text |
| `Categories.VRegistry.Allowed` | external/easylogging++/easylogging++.cc:2028-2041 | true exactly when the last rule whose pattern matches the category is at least as permissive as the level; false for a null category |
| `Categories.AppendedRulesDecide` | external/easylogging++/easylogging++.cc:1960-2041 | a category that one of the appended rules matches is decided by the appended rules alone |
| `Categories.AppendedRulesLeave` | external/easylogging++/easylogging++.cc:1960-2041 | every other category keeps its answer |
| `Categories.LastMatchDecides` | external/easylogging++/easylogging++.cc:2017-2041 | the last rule that matches permits exactly its own level and the ones in front of it in the list Fatal, Error, Warning, Info, Debug, Verbose, Trace; only a rule for Global permits Global |
| `Categories.StarRuleDecides` | external/easylogging++/easylogging++.cc:2017-2041 | the same for one rule that matches everything, position against position |
| `Categories.MoreSevereIsPermitted` | external/easylogging++/easylogging++.cc:2017-2041 | what is permitted at a position of that list is permitted at every earlier one |
| `Categories.NoMatchRefuses` | external/easylogging++/easylogging++.cc:2028-2041 | without a rule that matches nothing is permitted |
| `Categories.RunUpToComma` | external/easylogging++/easylogging++.cc:1980-2005 | scanning up to a comma does not depend on what comes after it |
| `Categories.JoinIsConcatenation` | external/easylogging++/easylogging++.cc:1970-2009 | joining with a comma concatenates the rules for every continuation if and only if the first text leaves no dangling name or level |
| `Categories.DanglingNameGlues` | external/easylogging++/easylogging++.cc:1986-1994 | a name without a level is glued to the name after the comma |
| `Categories.DanglingLevelIsTaken` | external/easylogging++/easylogging++.cc:1986-1994 | a level without a name is given to the name after the comma |
| `Categories.ScanUndoesPrint` | external/easylogging++/easylogging++.cc:1960-2009 | any list of non-empty names without colon or comma and known levels, printed as name:LEVEL,..., is scanned back in order |
| `Categories.RunKeepsWellFormed` | external/easylogging++/easylogging++.cc:1960-2009 | the scanner only ever stores such rules |
| `Categories.PrintedFormIsCanonical` | external/easylogging++/easylogging++.cc:1960-2009 | printing what was scanned and scanning again changes nothing; a list can be scanned from some text if and only if all its rules are of that form |
| `Categories.ReparseReproduces` | external/easylogging++/easylogging++.cc:1960-2014 | after any run of calls, if the texts since the last call that cleared leave nothing dangling, the very last one aside, scanning getCategories() gives the stored rules |
| `Categories.PrintedRunsStoreTheirRules` | external/easylogging++/easylogging++.cc:1960-2014 | after any run of printed lists the registry stores their concatenation, and so does its string |
| `WriterSafety.LocksAreRecursive` | external/easylogging++/easylogging++.h:955-1028 | the owner of a lock can take it once more and nobody else can, and releasing undoes taking, at every depth |
| `WriterSafety.StepKeepsStorage` | external/easylogging++/easylogging++.cc:2464-2569 | every step keeps what is known of the storage-wide lock: at most one Writer has it, the innermost of its thread, while it dispatches or looks for the default logger |
| `WriterSafety.StepKeepsInv` | external/easylogging++/easylogging++.cc:2517-2631 | every step of every Writer keeps the invariant over the locks of loggers and storage, streams, stacks of open Writers and dispatched messages |
| `WriterSafety.RunKeepsInv` | external/easylogging++/easylogging++.cc:2517-2631 | so does every run |
| `WriterSafety.EveryRunIsSafe` | external/easylogging++/easylogging++.cc:2517-2631 | the invariant holds in every state that some interleaving of threads reaches |
| `WriterSafety.LocksAndStreams` | external/easylogging++/easylogging++.cc:2542-2631 | in every reachable state a free logger has an empty stream, no lock has depth above one, and no thread has locked two loggers |
| `WriterSafety.LockDepths` | external/easylogging++/easylogging++.cc:2542-2631 | a thread has locked a logger exactly while its innermost Writer stands between initializeLogger and the release for it |
| `WriterSafety.NoTextMixes` | external/easylogging++/easylogging++.cc:2570-2631 | every dispatched message holds only pieces of its own Writer: its whole text or nothing |
| `WriterSafety.DoneWriterDispatchedItsList` | external/easylogging++/easylogging++.cc:2524-2609 | a finished Writer has dispatched once for each enabled entry of its list, in order and with the same text, and never for a disabled or missing one |
| `WriterAnswers.RunRemembers` | external/easylogging++/easylogging++.cc:2542-2569 | in every run a Writer holds the list and the text it was opened with, and what each of its steps was told about a logger |
| `WriterAnswers.DoneWriterSentItsAnswers` | external/easylogging++/easylogging++.cc:2524-2631 | told from the steps of the run alone: a Writer opened in any reachable state that is done in the end was told about every logger of its list, and sent one message to each that was found enabled, in order; the text is all it was given if the first one was found enabled, and empty otherwise |
| `WriterAnswers.ReporterSentItsReport` | external/easylogging++/easylogging++.cc:2546-2556 | the Writer that reports an unregistered logger sends one message to the logger called default, if that is enabled, and names the missing one |
| `WriterSafety.QuietMeansEmpty` | external/easylogging++/easylogging++.cc:2570-2631 | when no Writer is open every lock, that of the storage included, is free and every stream is empty |
| `WriterSafety.StorageIsInnermost` | external/easylogging++/easylogging++.cc:2464-2482 | whoever has the storage is innermost in its thread, has it once and can go on at once |
| `WriterSafety.WaitingHoldsNothing` | external/easylogging++/easylogging++.cc:2542-2569 | whoever waits for a logger has neither a logger nor the storage, so that locks are taken in one order: logger, then storage |
| `WriterSafety.SomeWriterCanStep` | external/easylogging++/easylogging++.cc:2464-2631 | while a Writer is open some Writer can go on without opening another, whatever loggers are registered: the two kinds of lock cannot deadlock |
| `WriterProgress.EveryWriterEnds` | external/easylogging++/easylogging++.cc:2517-2631 | in every run a Writer takes no more steps of its own than its measure says, and it is done exactly when none is left |
| `WriterProgress.OpenedWriterEnds` | external/easylogging++/easylogging++.cc:2517-2631 | in every run after it was opened a Writer takes at most eight steps for each logger of its list and one for each piece of text |
| `WriterProgress.StepUsesUp` | external/easylogging++/easylogging++.cc:2542-2569 | with the default logger registered every step uses up some of what all Writers, and the reports that they may still open, have left |
| `WriterProgress.EveryClosedRunEnds` | external/easylogging++/easylogging++.cc:2517-2631 | so every run in which no Writer is opened from outside has bounded length, whatever its interleaving |
| `WriterProgress.RestMeansQuiet` | external/easylogging++/easylogging++.cc:2517-2631 | and where no step is left to take, no Writer is open, every lock is free and every stream is empty |
| `HitCounters.RegisteredHitCounters.Find` | external/easylogging++/easylogging++.h:1573-1586 | the counter of a location, registered with zero hits if it is new |
| `HitCounters.RegisteredHitCounters.Store` | external/easylogging++/easylogging++.cc:1780-1821 | updating one counter leaves those of all other locations alone |
| `HitCounters.RegisteredHitCounters.ValidateEveryN` | external/easylogging++/easylogging++.cc:1780-1789 | the answer depends on the earlier calls at that location only, as HitsAfterRun says |
| `HitCounters.RegisteredHitCounters.ValidateAfterN` | external/easylogging++/easylogging++.cc:1793-1806 | the same for after-N |
| `HitCounters.RegisteredHitCounters.ValidateNTimes` | external/easylogging++/easylogging++.cc:1810-1821 | the same for N-times |
| `HitCounters.HitsDependOnOwnCallsOnly` | external/easylogging++/easylogging++.cc:1780-1821 | calls at other locations do not touch a counter |
| `HitCounters.InterleavedAnswer` | external/easylogging++/easylogging++.cc:1780-1821 | in any interleaving a location gives the answer of its own k-th call |
| `HitCounters.EveryNKeepsPhase` | external/easylogging++/easylogging++.h:2134-2139 | for n up to 100000 the folded counter keeps k mod n through every reset |
| `HitCounters.EveryNSticks` | external/easylogging++/easylogging++.h:2134-2139 | above 100000 the counter sticks at 100001 |
| `HitCounters.EveryNAnswer` | external/easylogging++/easylogging++.cc:1780-1789 | exactly which k-th call answers true, for every n: k mod n = 0 up to 100000, all calls from the n-th on for 100001, none otherwise |
| `HitCounters.EveryNIsPeriodic` | external/easylogging++/easylogging++.cc:1780-1789 | for n >= 1 every-N is periodic if and only if n <= 100000 |
| `HitCounters.AfterNAnswer` | external/easylogging++/easylogging++.cc:1793-1806 | after-N answers true exactly for k > n |
| `HitCounters.NTimesAnswer` | external/easylogging++/easylogging++.cc:1810-1821 | N-times answers true exactly for k <= n, up to the wrap of the counter at 2^64 |
| `FormatSpecifiers.Find` | external/easylogging++/easylogging++.cc:870-882 | basic_string::find as both loops use it: an occurrence at or after the start, or npos |
| `FormatSpecifiers.FindIsFirst` | external/easylogging++/easylogging++.cc:870-882 | no earlier occurrence is passed over |
| `FormatSpecifiers.ReplaceFirstWithEscape` | external/easylogging++/easylogging++.cc:870-882 | the loop that edits the string it scans ends, with the result of the search steps |
| `FormatSpecifiers.ConditionalAddFlag` | external/easylogging++/easylogging++.cc:1427-1441 | the sweeping loop ends, with its edited format and flag |
| `FormatSpecifiers.ReplaceLoopIsPass` | external/easylogging++/easylogging++.cc:870-882 | for specifiers of at least three characters the replacing loop is one pass from left to right |
| `FormatSpecifiers.SweepLoopIsPass` | external/easylogging++/easylogging++.cc:1427-1441 | and so is the sweeping loop |
| `FormatSpecifiers.FlagMeansUnescaped` | external/easylogging++/easylogging++.cc:1427-1441 | the flag is raised exactly when the format has an unescaped occurrence |
| `FormatSpecifiers.NoOccurrenceCreated` | external/easylogging++/easylogging++.cc:1427-1441 | erasing escapes makes no occurrence where there was none |
| `FormatSpecifiers.ReplaceAfterSweep` | external/easylogging++/easylogging++.cc:870-882 | the two passes one after the other are a single pass: the first unescaped occurrence becomes the value, every escaped one loses one percent sign, all else is copied |
| `FormatSpecifiers.NothingSweptWithoutFlag` | external/easylogging++/easylogging++.cc:1427-1441 | without an unescaped occurrence the format stays as it is |
| `FormatSpecifiers.SweepThenReplaceIsMeaning` | external/easylogging++/easylogging++.cc:1421-1441 | sweep and replacement together give the declared meaning, for every format and value |
| `FormatSpecifiers.ShortSpecifierIsMissed` | external/easylogging++/easylogging++.cc:870-882 | a two-character specifier right after an escaped one is stepped over |
| `FormatSpecifiers.SpecifierLengthCondition` | external/easylogging++/easylogging++.cc:870-882 | a specifier is resolved by its meaning in every format if and only if it has at least three characters |
| `FormatTokens.TokensFlatten` | external/easylogging++/easylogging++.cc:1421-1441 | every format is a list of specifiers, escaped specifiers and text |
| `FormatTokens.TokensAreClear` | external/easylogging++/easylogging++.cc:1421-1441 | in the text of that list no specifier stands, and none follows a stray percent sign unescaped |
| `FormatTokens.SweepIsTokenwise` | external/easylogging++/easylogging++.cc:1427-1441 | the sweep for one specifier touches only the tokens of that specifier |
| `FormatTokens.ReplaceIsTokenwise` | external/easylogging++/easylogging++.cc:870-882 | so does its replacement, whatever the value, if its specifier does not stand in the text as far as its first unescaped occurrence |
| `FormatTokens.FlagIsTokenwise` | external/easylogging++/easylogging++.cc:1427-1441 | the flag of a specifier says whether the format has it unescaped |
| `FormatPasses.SweepsAreTokenwise` | external/easylogging++/easylogging++.cc:1442-1455 | the sweeps one after the other leave each specifier as its own sweep does |
| `FormatPasses.FlaggedMeansPresent` | external/easylogging++/easylogging++.cc:1442-1455 | and no sweep changes the flag of a later one |
| `FormatPasses.CalmLineIsSubstituted` | external/easylogging++/easylogging++.cc:1442-1545 | for any table of specifiers of which none begins another, any order of turns and any values: sweeping for all and replacing one after the other is one simultaneous substitution, if at its turn no due specifier stands in the text of the line, values included, in front of its first place |
| `FormatPasses.UndisturbedIsCalm` | external/easylogging++/easylogging++.cc:1442-1545 | that is so if no value holds, or ends in the beginning of, a specifier whose turn comes later, and no beginning of a specifier in the format is followed by another specifier |
| `FormatPasses.LineIsSubstituted` | external/easylogging++/easylogging++.cc:1442-1545 | the same for any format string, stray percent signs included |
| `FormatPasses.InertCondition` | external/easylogging++/easylogging++.cc:870-882 | a later replacement leaves a value alone, whatever follows it in the line, if and only if its specifier neither stands in the value nor begins at the end of it |
| `FormatPasses.ValueIsReread` | external/easylogging++/easylogging++.cc:870-882 | a value that spells a specifier whose turn is still to come takes the value of that one, and the specifier itself stays in the line |
| `FormatPasses.CompletedTextIsReread` | external/easylogging++/easylogging++.cc:870-882 | so does the beginning of a specifier in the format that a value completes |
| `FormatPasses.SpecifierAlone` | external/easylogging++/easylogging++.cc:1442-1545 | a format of one specifier is its value, or stays as it is where no value is due |
| `LogLines.SpecifiersAreTable` | external/easylogging++/easylogging++.h:734-748 | none of the fourteen specifiers of the library begins another |
| `LogLines.TurnsAreOnce` | external/easylogging++/easylogging++.cc:1498-1545 | the turns of updateFormatSpec, resolveLoggerFormatSpec and build have each specifier once |
| `LogLines.LogLineIsSubstituted` | external/easylogging++/easylogging++.cc:2385-2449 | for every level and every format in which no beginning of a specifier is followed by another: the finished line is the simultaneous substitution when no value but the message has a percent sign; the message may hold anything |
| `LogLines.EachSpecifierAlone` | external/easylogging++/easylogging++.cc:2385-2449 | the line of a format that is one specifier, written out for each: its own value of the message; %vlevel stays where the message is not verbose |
| `LogLines.LevelAlone` | external/easylogging++/easylogging++.cc:1498-1533 | what %level becomes at each level, written out; it stays at Global and Unknown |
| `LogLines.LevelShortAlone` | external/easylogging++/easylogging++.cc:1498-1533 | the same for %levshort |
| `LogLines.LoggerIdIsReread` | external/easylogging++/easylogging++.cc:650-658 | a logger with the id %msg under the format %logger %msg prints the message first and %msg second |
| `LogLines.AppNameCompletes` | external/easylogging++/easylogging++.cc:2389-2393 | an application called sg under the format %m%app %msg prints the message first and %msg second |
| `DateTime.AddToBuff` | external/easylogging++/easylogging++.cc:943-947 | copies up to the limit, writes a terminator only below it, and leaves all else alone |
| `DateTime.ConvertAndAddToBuff` | external/easylogging++/easylogging++.cc:928-941 | the digits of the number, zero-padded or not, at most eight, copied up to the limit |
| `DateTime.LocalDigits` | external/easylogging++/easylogging++.cc:928-941 | the backwards loops over the local buffer produce exactly those digits |
| `DateTime.FillDigits` | external/easylogging++/easylogging++.cc:932-933 | the digit loop |
| `DateTime.FillZeros` | external/easylogging++/easylogging++.cc:938-939 | the padding loop |
| `DateTime.ParseFormat` | external/easylogging++/easylogging++.cc:1188-1250 | for every format, time and buffer size the buffer holds exactly the first min(size, length) characters of the unbounded rendering and nothing at or past the limit is written |
| `DateTime.FormatTurn` | external/easylogging++/easylogging++.cc:1191-1248 | one turn of that loop, including %%, a final % and unknown specifiers |
| `DateTime.AddField` | external/easylogging++/easylogging++.cc:1199-1242 | one case of its switch, copied up to the limit |
| `DateFields.DatesAreRendered` | external/easylogging++/easylogging++.cc:1199-1216 | %d, %M and %y are two digits of the day, of the month counted from one and of the year |
| `DateFields.HoursAreRendered` | external/easylogging++/easylogging++.cc:1220-1231 | %h, %H, %m and %s are two digits of the hour modulo twelve, the hour, the minute and the second |
| `DateFields.YearIsRendered` | external/easylogging++/easylogging++.cc:1217-1219 | %Y is the last four digits of the year |
| `DateFields.SubsecondsAreRendered` | external/easylogging++/easylogging++.cc:1232-1235 | %g and %z spell the subseconds modulo the power of ten of their width, in as many digits |
| `DateFields.NamesAreRendered` | external/easylogging++/easylogging++.cc:1202-1207 | %a and %A are the names of the day, written out, and %F is PM from twelve on |
| `DateFields.MonthsAreRendered` | external/easylogging++/easylogging++.cc:1211-1216 | %b and %B are the names of the month, written out |
| `DateFields.OthersAreRendered` | external/easylogging++/easylogging++.cc:1191-1246 | a doubled percent sign is one, a last one and plain text stay, any other specifier vanishes |
| `DateFields.EightDigitsAtMost` | external/easylogging++/easylogging++.cc:928-941 | no number has more than eight digits, however many are asked for |
| `DateFields.StampReads` | external/easylogging++/easylogging++.cc:1188-1250 | every default stamp reads as its time: the digits at fixed places spell year, month, day, hour, minute and second, with their separators, and behind them the subseconds |
| `Timestamps.TimevalToString` | external/easylogging++/easylogging++.cc:1124-1133 | returns the whole rendering when it is shorter than the 30-character buffer; otherwise the buffer holds no terminator |
| `Timestamps.PaddedIsModulo` | external/easylogging++/easylogging++.cc:928-941 | zero-padded conversion to len digits gives exactly len digits that spell n modulo 10^len |
| `Timestamps.PaddedOrder` | external/easylogging++/easylogging++.cc:928-941 | numbers that fit their width sort as their digits |
| `Timestamps.LeadingDigitsCondition` | external/easylogging++/easylogging++.cc:1340-1362 | the printed subsecond digits are the leading digits of the six-digit microseconds, for all times, if and only if the width asked for is neither one nor two |
| `Timestamps.ShownDigitsDecide` | external/easylogging++/easylogging++.cc:1340-1362 | two stamps of one second compare as the digits that are shown, the number modulo the power of ten of its width |
| `Timestamps.RenderIsPrint` | external/easylogging++/easylogging++.cc:1188-1250 | a format of numbers and separators renders as the padded numbers between the separators |
| `Timestamps.StampLength` | external/easylogging++/easylogging++.h:757 | every stamp in the default format has 20 characters more than the subsecond width, below the buffer size |
| `Timestamps.StampOrder` | external/easylogging++/easylogging++.cc:1340-1362 | with three subsecond digits or more stamps compare exactly as (year, month, day, hour, minute, second, subsecond) |
| `Timestamps.HundredBeforeNinetyNine` | external/easylogging++/easylogging++.cc:1340-1362 | with one or two digits the stamp of 100 ms sorts before the stamp of 99 ms of the same second, for every time |
| `Timestamps.StampsSortCondition` | external/easylogging++/easylogging++.cc:1340-1362 | stamps sort as their times if and only if the width asked for is neither one nor two |
| `Text.CStringCaseEq` | external/easylogging++/easylogging++.cc:901-918 | equality of the two NUL-terminated strings up to case; a null pointer equals only a null pointer |
| `ConfigurationNames.LevelFromString` | external/easylogging++/easylogging++.cc:79-86 | the level of the first table entry equal up to case, or Unknown |
| `ConfigurationNames.TypeFromString` | external/easylogging++/easylogging++.cc:152-159 | the type of the first table entry equal up to case, or Unknown |
| `ConfigurationNames.NamesAreReadBack` | external/easylogging++/easylogging++.cc:50-159 | every level and every type is read back from its own name |
| `Spellings.TypeCondition` | external/easylogging++/easylogging++.cc:121-159 | a text is read as a type if and only if it is one of the ten names written out here, in whatever case, up to its first NUL |
| `Spellings.LevelCondition` | external/easylogging++/easylogging++.cc:50-86 | the same for the eight levels |
| `Spellings.PrefixCondition` | external/easylogging++/easylogging++.cc:88-106 | a text starts with a level if and only if it starts with its name, all in capitals or all in small letters |
| `Spellings.StarTextDecides` | external/easylogging++/easylogging++.cc:1960-2041 | the text *:LEVEL, from its scan to its decision: exactly that level and the more severe ones are permitted, for every category |
| `Spellings.SettingInAnyCase` | external/easylogging++/easylogging++.cc:408-470 | the type of a setting may be written in any case |
| `Spellings.LevelLineInAnyCase` | external/easylogging++/easylogging++.cc:433-442 | so may the level of a level line |
| `ConfigurationValues.TrimIsCore` | external/easylogging++/easylogging++.cc:1660-1671 | blanks around a value are taken off and nothing else |
| `ConfigurationValues.BoolCondition` | external/easylogging++/easylogging++.cc:1608-1611 | a value is true if and only if it is TRUE, true or 1 with blanks around it |
| `ConfigurationValues.DigitsAreRead` | external/easylogging++/easylogging++.cc:1660-1672 | decimal digits with blanks around them are read as their number, up to the largest long, and as that one from there on |
| `ConfigurationValues.NumberIsRead` | external/easylogging++/easylogging++.cc:1660-1672 | the same for every number in its usual form |
| `ConfigurationValues.OtherIsZero` | external/easylogging++/easylogging++.cc:1660-1672 | a value that is empty or has anything but digits is read as zero |
| `ConfigurationValues.PrecisionIsRead` | external/easylogging++/easylogging++.cc:1340-1362 | the digits and the divisor that a number asks for: its lowest 32 bits, where they are one to six, and three digits otherwise |
| `ConfigurationValues.BuiltObjectReadsNumber` | external/easylogging++/easylogging++.cc:1637-1645 | end to end: where the value last written to a level is a number, the built object reads that number |
| `ConfigurationValues.BuiltObjectReadsWord` | external/easylogging++/easylogging++.cc:1617-1622 | end to end: true is read as true and false as false |
| `ConfigurationValues.UntouchedReads` | external/easylogging++/easylogging++.cc:298-324 | what a level reads that nothing reached since setToDefault, written out: enabled, to the standard output, both sizes zero, its format |
| `ConfigurationValues.UntouchedFile` | external/easylogging++/easylogging++.cc:298-324 | and to a file, of which there is none |
| `ConfigurationValues.UntouchedInfo` | external/easylogging++/easylogging++.cc:298-324 | three subsecond digits and performance tracking at every level |
| `ConfigurationValues.DefaultLogSize` | external/easylogging++/easylogging++.cc:1637-1645 | the size 104850000 is read as itself |
| `ConfigurationText.IgnoreComments` | external/easylogging++/easylogging++.cc:385-402 | the line without its comment, where the search for the closing quote steps over escaped quotes |
| `ConfigurationText.StripQuotes` | external/easylogging++/easylogging++.cc:451-469 | the value after the search for its quotes and the erasing of escapes, as `Unquoted` gives it: what stands between the quotes only where nothing precedes them |
| `ConfigurationText.EraseEscapes` | external/easylogging++/easylogging++.cc:453-459 | the loop that erases backslashes while it searches ends, with the edited value |
| `ConfigurationText.ParseLine` | external/easylogging++/easylogging++.cc:420-478 | the new level, store and result of one line, in every branch |
| `ConfigurationText.ParseFromText` | external/easylogging++/easylogging++.cc:369-383 | the store after setFromBase and all lines in order |
| `QuotedValues.EscapesAreErased` | external/easylogging++/easylogging++.cc:453-459 | the loop that searches and erases takes off every backslash that was put in front of a quote, and ends at the closing quote, if and only if the quotes are far enough apart |
| `QuotedValues.UnquotedCondition` | external/easylogging++/easylogging++.cc:451-469 | any value, written between quotes with every quote in it escaped, comes back if and only if it is not empty, does not end in a backslash, has no two quotes side by side and has two characters behind its last quote |
| `QuotedValues.ClosingQuoteIs` | external/easylogging++/easylogging++.cc:385-402 | the search in ignoreComments, which erases nothing, finds the closing quote of such a value, and exactly when |
| `QuotedValues.PrefixCondition` | external/easylogging++/easylogging++.cc:451-469 | with text in front of the opening quote the value between the quotes is taken if and only if that text is empty |
| `QuotedValues.PrefixIsNotDropped` | external/easylogging++/easylogging++.cc:451-469 | x"ab" gives ab and the closing quote |
| `ConfigurationPrinting.NoCommentInQuotes` | external/easylogging++/easylogging++.cc:385-402 | a comment sign inside quotes is kept |
| `ConfigurationPrinting.WholeLineIsRead` | external/easylogging++/easylogging++.cc:420-470 | a setting whose closing quote is found, or without comment sign, is read as its type and unquoted value |
| `ConfigurationPrinting.CutLineIsRead` | external/easylogging++/easylogging++.cc:385-470 | with a closing quote that is not found and a comment sign inside, the value read is not the one written |
| `ConfigurationPrinting.SettingCondition` | external/easylogging++/easylogging++.cc:420-470 | TYPE = "value" with escaped quotes, for any value, comment signs included, is read as that type always and as that value if and only if the value is one that comes out of its quotes |
| `ConfigurationPrinting.QuotedCommentIsDropped` | external/easylogging++/easylogging++.cc:385-402 | a comment behind a quoted setting whose closing quote ignoreComments finds is dropped, whatever else the value or the comment contains |
| `ConfigurationPrinting.CommentLineIsIgnored` | external/easylogging++/easylogging++.cc:425-426 | a line that starts with ##, outer spaces aside, has no effect |
| `ConfigurationPrinting.LevelLineParses` | external/easylogging++/easylogging++.cc:433-442 | * LEVEL: is read as that level |
| `UnquotedSettings.OpenLineIsRead` | external/easylogging++/easylogging++.cc:385-470 | a line TYPE = text without a closed pair of quotes is read as the unquoted text in front of its comment |
| `UnquotedSettings.UnquotedSettingCondition` | external/easylogging++/easylogging++.cc:420-470 | TYPE = value without quotes is read as that value if and only if the value has no outer space and no comment sign |
| `UnquotedSettings.CommentCondition` | external/easylogging++/easylogging++.cc:385-470 | a comment behind an unquoted value is dropped if and only if the line, comment included, has no closed pair of quotes |
| `UnquotedSettings.QuotedWordSpoilsValue` | external/easylogging++/easylogging++.cc:385-402 | a quoted word anywhere in that comment spoils the value |
| `SettingComments.LeftoverCondition` | external/easylogging++/easylogging++.cc:451-469 | a comment that was left behind a quoted value: parseLine takes the value off all the same if its own search ends at the closing quote, and otherwise, or if the value has a comment sign, a comment sign stays in it |
| `SettingComments.QuotedCommentCondition` | external/easylogging++/easylogging++.cc:385-470 | for any value and comment: a comment behind a quoted setting is dropped if and only if ignoreComments finds the closing quote, or the line has no closing quote at all, or parseLine finds it and the value has no comment sign |
| `PrintedEntries.SettingLineSets` | external/easylogging++/easylogging++.cc:420-470 | a line that starts as a setting is one, whatever quotes and comment signs follow |
| `PrintedEntries.TextKeepsPlainLine` | external/easylogging++/easylogging++.cc:369-383 | no text puts a value with a line end anywhere |
| `PrintedEntries.EntryCondition` | external/easylogging++/easylogging++.cc:369-478 | the text of one entry has the effect of `set` if and only if its value has no line end and comes out of its quotes |
| `PrintedEntries.OddLineIsRefused` | external/easylogging++/easylogging++.cc:443-478 | a line that starts with neither a letter nor a star, or has no equals sign, is reported as not parsed and changes nothing |
| `PrintedEntries.UnknownIsRefused` | external/easylogging++/easylogging++.cc:471-478 | so is a setting in front of the first level line, and one of a type that is not known |
| `PrintedEntries.LastLineActs` | external/easylogging++/easylogging++.cc:369-383 | behind other lines the last line acts on the level and the store that they leave, and what is reported for the text is what it says |
| `PrintedEntries.TextIsOverlay` | external/easylogging++/easylogging++.cc:369-478 | the text of any list of such entries has the effect of setting them in order, values with =, ##, escaped quotes or outer spaces included |
| `Codelength.Encode` | external/miniupnpc/codelength.h:48-52 | writes exactly the code word at the cursor, advances past it and changes no other byte |
| `Codelength.Decode` | external/miniupnpc/codelength.h:17-19 | consumes exactly one word and returns its value, without 32-bit overflow |
| `Codelength.DecodeRead` | external/miniupnpc/codelength.h:24-31 | the same through a reader |
| `Codelength.DecodeCheckLimit` | external/miniupnpc/codelength.h:37-42 | never passes the limit, ends on every input, and agrees with the others whenever a word ends before the limit |
| `Codelength.WordUnique` | external/miniupnpc/codelength.h:17-42 | where a word ends is decided by its bytes, so that the three decoders agree |
| `Codelength.CodeDecodes` | external/miniupnpc/codelength.h:17-52 | every 32-bit value is the value of its code word |
| `Codelength.PrefixFree` | external/miniupnpc/codelength.h:48-52 | no code word is a prefix of another |
| `Codelength.RoundTrip` | external/miniupnpc/codelength.h:17-52 | a concatenation of code words decodes to the encoded sequence and to no other |
| `Codelength.LengthIsLeast` | external/miniupnpc/codelength.h:48-52 | the code word has the least k >= 1 bytes with n < 2^(7k) |
| `Codelength.ReencodingStrips` | external/miniupnpc/codelength.h:17-52 | re-encoding a properly ended word drops its leading 0x80 bytes and nothing else |
| `Codelength.ShortestForm` | external/miniupnpc/codelength.h:17-52 | the code word is the unique shortest word of its value |
| `Codelength.ZeroGroupsRunOn` | external/miniupnpc/codelength.h:37-42 | bytes 0x80 alone never end a word |
| `Embedder.EmitData` | translations/generate_translations_header.c:54-64 | the loop writes sixteen escapes a line, quotes them and ends with the byte count |
| `Embedder.EmittedIsRead` | translations/generate_translations_header.c:55-64 | the literals read as the bytes under sections 2.14.3 and 2.14.5 of C++11, since no escape is followed by a hexadecimal digit |
| `Embedder.DataCondition` | translations/generate_translations_header.c:54-64 | std::string(literals, count) is the file, whatever follows, if and only if the file is not empty; an empty file is not read at all |
| `Embedder.NameCondition` | translations/generate_translations_header.c:53 | the name literal reads as the name, whatever follows, if and only if the name has no double quote, backslash or newline |
| `Embedder.FindEmbeddedFile` | translations/generate_translations_header.c:25-35 | finds the first file of that name with its data; for distinct names that is the file; otherwise false and the data untouched |
| `EmbeddedHeader.Generate` | translations/generate_translations_header.c:45-78 | the text of the header from its first line to the end of the table: the definitions of all files and a table that refers to them by name |
| `HeaderTails.TableIsAtEnd` | translations/generate_translations_header.c:69-78 | a text can be read as a table from one place only, blanks in front of it aside |
| `EmbeddedLookup.NameIsRead` | translations/generate_translations_header.c:53 | the definition of a name gives its identifier the name if and only if the name is plain, and another value or none otherwise |
| `EmbeddedLookup.DataIsRead` | translations/generate_translations_header.c:54-64 | the definition of the data gives its identifier the bytes of the file, and cannot be read if the file is empty |
| `EmbeddedLookup.AllAreDefined` | translations/generate_translations_header.c:49-67 | the definitions of files that survive give every identifier its value |
| `EmbeddedLookup.SomeAreMisread` | translations/generate_translations_header.c:49-67 | otherwise nothing is read, or some identifier has a wrong name |
| `EmbeddedLookup.RowsAreRead` | translations/generate_translations_header.c:74-78 | the rows lead to the values of the two identifiers that they name, in order |
| `EmbeddedLookup.HeaderCondition` | translations/generate_translations_header.c:45-78 | a reader that knows the language and not the writer, with identifiers resolved through the definitions and pairs through the members of the structure, reads the header as exactly the list of files if and only if no file is empty and every name is plain |
| `EmbeddedLookup.FindGenerated` | translations/generate_translations_header.c:25-78 | writing, reading and looking up: with different names every file is found with its data, and nothing else is found |
| `EmbeddedLookup.LinesOfSixteen` | translations/generate_translations_header.c:55-63 | every line of escapes but the last holds sixteen bytes |

## Left out

- TypedConfigurations.TypedConfigurations.constructor: the third loop of `build`, which rolls files over and changes no map, is not part of the model. The map of streams that all loggers share is part of the object here; what it holds at the start is a parameter.
- TypedConfigurations.TypedConfigurations.InsertFile: the date in a file name and the success of opening a file are parameters, and the date does not change while `build` is at work; directories are not created.
- File streams, rolling and everything else that touches files, the clock, the environment or other processes.
- In `FormatPasses`: %datetime, which has a date format of its own and is text like any other there, and specifiers that users define.
- `setRemainingToDefault` as a whole; its single writes, `unsafeSetIfNotExist`, are part of the runs.
- `setToDefault` is modelled with the build options of this repository (a default log file name that is empty, logging to files allowed); its nine global writes are a table walked in order.
- `ELPP_ASSERT` is taken to be disabled, so that a line which fails its assertions is only reported as not parsed.
- `parseFromFile`, which differs from `parseFromText` only in where its lines come from.
- `atol` is taken to saturate at the largest `long`, as common C libraries do.
- `clearCategories`, which leaves the category string behind, and the verbose-module table of `setModules`.
- A null `categories` argument of `setCategories`, which the code appends to a string before it tests it.
- The Writer path without locking, nested logging to one logger on the same thread, and abort on fatal messages; a thread opens one Writer at a time, apart from the one that reports an unregistered logger. What dispatch callbacks do while the storage is locked is one step.
- The text that a dispatched message is rendered to is not part of the Writer protocol; a message is the sequence of pieces offered to `<<`.
- Unregistering, copying and flushing of registries; `formatTime`; the asynchronous worker, crash handling, syslog and container printing.
- Years of more than four digits, which `%Y` cuts, in the order of stamps.
- EmbeddedHeader.Generate: the fixed text behind the table (the lookup function, modelled by `FindEmbeddedFile`, and the end of the include guard) is not emitted here.
- EmbeddedLookup.HeaderCondition: the reader knows the constructs of C++ that the header uses, and is not a parser of C++.
- Escapes other than hexadecimal ones, trigraphs and other encodings in the reader of C++ literals.
- Files of 2^31 bytes or more, whose count would not fit the `int` that counts them.
