# nanomsgpp and its test runner

This project models two parts of the repository and proves what they keep over every input and every run.

The vendored Catch 1.0 runner in `test/catch.hpp`, on which the repository's tests run:

- **Section tracking** (`TestBodies`, `TrackerModel`, `TrackerProofs`, `TrackerTheorems`, `SectionResults`,
  `SectionLog`, `SectionTracking`). A test body is a finite tree of sections that may throw at fixed points. It is run
  again and again until every section is completed. `TrackerModel` is the tracker as a state machine;
  `SectionTracking` has the linked section objects with parent pointers. The runs a body gets are defined from the
  body alone (`TestBodies.ForestRun`, `TestBodies.TotalRuns`), and the tracker is shown to produce exactly those.
- **The runner** (`RunnerModel`, `RunnerCounts`, `KnownSections`, `RunnerFlags`, `ThrownRuns`, `ReplayedMisses`,
  `TrackerProgress`, `RunnerRepeats`, `TestRuns`, `TestTallies`, `AbortedRuns`, `SectionRunner`, `TotalsKeeping`,
  `TotalsDivider`):
  the loop over the passes with its deferred ends, the counts of assertions and test cases, the test for missing
  assertions, the failures at which a run aborts, and the calls to the reporter, on values and as a class that drives
  the tracker objects.
- **The cumulative reporter** (`SectionTrie`, `ReporterShape`, `CumulativeReporting`, `RunnerEvents`, `ReportedRuns`,
  `NodeContents`):
  what its linked nodes hold after any calls, when that is the tree of the sections, and when the runner's calls
  make it so.
- **Generators** (`Generators`, `GeneratedRuns`, `CompositeGenerators`): the index counter over all combinations, the
  passes that see them in a body with sections, and generators strung together from value sources.
- **Test specifications** (`TestSpecs`, `SpecGrammar`, `SpecMeaning`): the character-driven parser, its inverse
  printer, and which test cases a specification selects.
- **Text wrapping** (`TextWrapping`, `PlainText`, `TabbedText`, `LineBreaks`), **XML output** (`XmlEncoding`,
  `XmlReading`, `XmlWriting`, `XmlContents`, `XmlReadBack`, `XmlLayout`, `XmlClasses`, `XmlScopes`) and the
  **command-line tokens** (`CommandLineTokens`).

The repository's own code:

- **Client output** (`ClientOutput`): the quoted and MessagePack encoders of `src/client/nanomsgpp.cpp`, with
  readers that undo them. The record layout is that of the "bin format family" section of the MessagePack specification.
- **Message buffers** (`BufferLedger`, `BufferAccounting`, `PartSizes`, `MessageBuffers`, `Messages`): who owns, frees,
  gives up and drops the blocks of parts, messages and headers, and what size nanomsg is shown for each.

Code that changes fields step by step is modelled by classes and loops, each tied to a state machine or function on
values; the theorems are about those.

## Findings

Where the code does not do what one would expect, the code is kept and the exact condition is proved:

- The guard of a test case leaves it while an exception is still unwinding, before the unfinished sections are ended.
  A pass that throws inside a section therefore never completes the test case, and if it was the last one another
  pass follows that enters nothing (`TrackerTheorems.PassIsEager`, `TestBodies.TotalRuns`, `ThrownRuns.TwoLeft`).
- An exception in the first pass through a nested section completes that section before its later children are
  discovered; they never run. Every leaf runs if and only if this happens nowhere (`SectionResults.EveryLeafRunsIff`,
  `SectionLog.HiddenSibling`).
- The tracker leaves unfinished sections innermost first, the reporter is told of them outermost first. In pass i of a
  body the two agree if and only if the body leaves at most one section to that pass (`ThrownRuns.LeftCount`,
  `ThrownRuns.ReporterAgreesIff`). The reporter's input stays well nested, and its nodes stay the tree of the
  sections, if and only if in every pass the lines of the sections left read the same both ways
  (`RunnerEvents.LogNestedIff`, `ReportedRuns.TestReportedIff`). Two sections under different lines do not
  (`ThrownRuns.TwoLeft`, `RunnerEvents.CrossedEnds`, `ReportedRuns.CrossedTest`).
- While these ends are replayed the tracker stands in another section than the one reported, so the test for missing
  assertions asks about the wrong one. In pass i of a body the replay reports what each section ought to get if and
  only if the body leaves at most one section to that pass, the option is not set, the innermost one left has sections,
  or something was counted since that began (`ReplayedMisses.RunReplayIff`; `ReplayedMisses.PassReplayIff` for any
  pass). Otherwise the innermost, a leaf that ran nothing, is not reported as missing an assertion, and the outermost,
  which has sections, is if nothing was counted since it began (`ReplayedMisses.EndRightIff`,
  `ReplayedMisses.EmptyLeafLost`).
- A run is taken to abort when its failures equal the abort count. A missing assertion is counted where nothing
  throws, so the next failing check can pass that count; from then on the run never stops
  (`AbortedRuns.AbortMissed`, `TestRuns.PastAbort`).
- A pass of a test whose failures are tolerated gives them back at its end, so a check in it that aborts does not end
  the loop over the passes, which can then go on for ever (`AbortedRuns.Endless`). It does if and only if the failures
  are tolerated and some pass before its end leaves all sections as they were (`TestRuns.EndlessIff`); a loop that ends
  does so within four times the number of sections and one more passes (`TestRuns.EndsInTime`).
- The tracker is kept between generator combinations, so only the passes of the first one enter sections. A section
  never reads another value of a generator than the first, and a later value is read if and only if the generator is
  used outside all sections; one used inside still multiplies the passes (`GeneratedRuns.InsideIsFirst`,
  `GeneratedRuns.ValueReadIff`, `GeneratedRuns.LoopsEnd`, `GeneratedRuns.SecondNotRead`).
- A generator of size zero is only passed over after all 2^64 indices (`Generators.EmptyGeneratorTakesAll`).
- A composite generator that was moved from keeps its total. After any sequence of calls a total is the number of
  values if and only if the calls left the generator untainted (`CompositeGenerators.ConsistentIffUntainted`).
- An empty name or tag in a test specification runs on to the next closing character
  (`TestSpecs.EmptyTermRunsOn`, `TestSpecs.EmptyTerm`). A term reads back if and only if its text is not empty, has
  no closing character after its first and does not begin with `exclude:` (`TestSpecs.TermReadsBackIff`).
- The arguments of a command line make one specification: the last filter of one goes on in the next, so that only a
  comma begins a new one (`SpecGrammar.ParseArguments`).
- A tab in what would be the last line of a text makes the wrapper read past the end of the string, and nothing else
  does where a column is free (`TabbedText.CutFailsIff`, `TabbedText.OverrunIff`, `TabbedText.TextFailsIff`). The
  indent passes the width if and only if the first line hangs (`TabbedText.IndentsStayIff`, `TabbedText.WrappedAtTab`,
  `TabbedText.HangingLine`).
- Scoped XML elements end each other's elements unless they are dropped in the reverse of their opening order
  (`XmlScopes.OwnEndsIffLastFirst`, `XmlScopes.OutOfOrder`).
- A short-option cluster means its letters one by one if and only if none is a separator or a dash
  (`CommandLineTokens.ClusterIff`).
- Move assignment and `release` let go of blocks without freeing them. A program frees everything it allocated, or
  leaves it to nanomsg, if and only if as many blocks are freed from the caller's hands, wrapped again or taken over
  as came there or were assigned over (`BufferAccounting.LeakFreeIff`); an assigned-over block is never freed
  (`BufferAccounting.OverwrittenIsFinal`, `BufferAccounting.AssignedOver`).

## Model

| member | source | states |
|---|---|---|
| TrackerModel.DeferredIsEager | test/catch.hpp:5070-5083 | Deferring the ends of sections an exception passes through, and replaying them afterwards, leaves the tracker exactly as leaving each section at once would have, for every body and every tracker state |
| TrackerModel.Invoke | test/catch.hpp:4858-4872 | One pass of a body: what an exception leaves pending is the chain from the current section outwards, and nothing is pending if none escapes |
| TrackerModel.Replay | test/catch.hpp:5145-5150 | Ending n unfinished sections moves the current section up by exactly n |
| TrackerModel.RunOnce | test/catch.hpp:5111-5150 | After any pass, throwing or not, the current section is the test case again, so the assertion on the parent pointer never fails |
| TrackerTheorems.PassIsEager | test/catch.hpp:5117-5150 | A whole pass equals one that leaves sections at once, except that the guard leaves the test case before the replay, so a pass with unfinished sections never completes the test case |
| TrackerTheorems.PendingIsOpen | test/catch.hpp:4881-4893 | When the guard leaves the test case during unwinding, some child of it is not yet completed |
| TrackerTheorems.ForestPending | test/catch.hpp:5070-5074 | Pass k leaves unfinished sections exactly if the pass that the body predicts for k throws inside a section |
| TrackerProofs.RunForest | test/catch.hpp:4858-4872 | A pass over sibling sections that have been run k times enters and leaves exactly the chain of sections of their k-th run, completes a section not started before, and advances the tracker to k + 1 runs |
| TrackerProofs.RunSection | test/catch.hpp:4821-4834 | A pass through one section advances it by one run, and completes it exactly at its last run |
| TrackerProofs.SkipForest | test/catch.hpp:4858-4861 | Once a section was completed in a pass, later siblings are only recorded, never entered |
| TrackerProofs.CompletedForest | test/catch.hpp:4858-4861 | A pass over completed siblings enters none of them |
| TrackerTheorems.RunsUntilCompleted | test/catch.hpp:4997-5001 | For every body with distinct sibling keys, throwing at fixed points or not, the loop stops after exactly TotalRuns passes, not before, and the log of sections entered and left is that of the predicted runs in order |
| TrackerTheorems.LaterPassesEnterNothing | test/catch.hpp:4995-5003 | The tracker is not reset between generator combinations: every pass after completion enters no section and leaves the test case completed |
| TestBodies.InterruptedRuns | test/catch.hpp:5070-5074 | If the leftmost chain of a section throws, every run of it is cut short; otherwise its first run is not |
| TestBodies.NestedRun | test/catch.hpp:4858-4872 | A run of a section with children is the run with the same number over its children; if its first child is cut short it never reaches another child |
| SectionResults.RunsAreLeaves | test/catch.hpp:4858-4872 | Every run follows one path from the test case to a section without sections of its own |
| SectionResults.RunsDiffer | test/catch.hpp:4860-4861 | No two runs follow the same path |
| SectionResults.EveryLeafRunsIff | test/catch.hpp:4858-4872 | Every leaf section is run if and only if no nested section with later siblings is cut short in its first child |
| SectionResults.LosslessRuns | test/catch.hpp:4858-4872 | In a body where no sibling is hidden every leaf is reached by some run |
| SectionResults.LossyHides | test/catch.hpp:5070-5074 | In any other body a concrete leaf exists that no run reaches |
| SectionResults.OnePassPerLeaf | test/catch.hpp:4997-5001 | A body that never throws is run once per leaf section, and once if it has none |
| SectionResults.AtMostOnePassPerSection | test/catch.hpp:4997-5001 | Throwing or not, there are at most as many section-entering runs as sections |
| SectionResults.TotalRunsBound | test/catch.hpp:4997-5001 | The loop stops within the number of sections plus one runs |
| SectionLog.TraceCount | test/catch.hpp:4858-4872 | A run along a path enters and leaves each section on it once and no other |
| SectionLog.EnteredIsLeft | test/catch.hpp:5145-5150 | Over the whole loop every section is left exactly as often as it is entered, also under exceptions |
| SectionLog.LeafRunsOnce | test/catch.hpp:4858-4872 | Over the whole loop a leaf section is entered and left exactly once, or never if an exception hides it |
| SectionLog.QuietLeafRunsOnce | test/catch.hpp:4858-4872 | Without exceptions every leaf section is executed exactly once |
| SectionLog.HiddenSibling | test/catch.hpp:4858-4872 | A concrete body in which a throwing first nested section keeps its sibling from ever running |
| SectionLog.CompletedIffNotRunAgain | test/catch.hpp:4826-4833 | Between two passes a discovered section is Completed exactly when no later pass goes through it |
| SectionTracking.TrackedSection.constructor | test/catch.hpp:4803-4805 | A new section is not started and has no children |
| SectionTracking.TrackedSection.AcquireChild | test/catch.hpp:4815-4820 | The known child unchanged, or a new one linked to this parent and inserted |
| SectionTracking.TrackedSection.Enter | test/catch.hpp:4821-4824 | Only a section not yet started becomes executing |
| SectionTracking.TrackedSection.Leave | test/catch.hpp:4825-4834 | Completed if and only if all children are, found by a loop that stops at the first that is not |
| SectionTracking.TestCaseTracker.constructor | test/catch.hpp:4852-4856 | The object tree starts as the initial state of the state machine |
| SectionTracking.TestCaseTracker.ChildrenAreNodes | test/catch.hpp:4838-4848 | The children map of a section object is exactly the known paths one key longer, and all are completed in the objects exactly if they are in the state machine |
| SectionTracking.TestCaseTracker.EnterSection | test/catch.hpp:4858-4866 | On the linked objects, the result and the whole new state are those of the state machine; links and parents stay consistent |
| SectionTracking.TestCaseTracker.LeaveSection | test/catch.hpp:4867-4872 | The current object leaves and its parent, never null, becomes current, as in the state machine |
| SectionTracking.TestCaseTracker.EnterTestCase | test/catch.hpp:4896-4900 | Current becomes the test case and the per-run flag is cleared; no other section changes |
| SectionTracking.TestCaseTracker.LeaveTestCase | test/catch.hpp:4901-4903 | Only the test case's own state changes, by the rule for leaving |
| SectionTracking.TestCaseTracker.IsCompleted | test/catch.hpp:4877-4879 | True exactly if the test case's state is Completed |
| SectionTracking.TestCaseTracker.CurrentSectionHasChildren | test/catch.hpp:4874-4876 | True exactly if some path one key below the current one is known |
| Generators.NextCounts | test/catch.hpp:6131-6139 | moveNext adds one in the mixed radix of the sizes, and returns false exactly when it wraps from the last tuple to all zeros |
| Generators.NextCarries | test/catch.hpp:6131-6139 | The exhausted digits before the first one that can advance are reset, that one is advanced, the others stay |
| Generators.TupleOfValue | test/catch.hpp:6131-6139 | The tuple of a tuple's number is the tuple |
| Generators.ValueOfTuple | test/catch.hpp:6131-6139 | The number of a number's tuple is the number, and the tuple is within the sizes |
| Generators.AdvancedIsTuple | test/catch.hpp:6131-6139 | From all zeros, n calls reach the n-th tuple, and the first call to return false is the one numbered by the product of the sizes |
| Generators.EveryTupleOnce | test/catch.hpp:6131-6139 | Every index tuple is visited by exactly one number of calls below the product |
| Generators.GeneratorsForTest.GetGeneratorInfo | test/catch.hpp:6120-6129 | The generator registered under that name, registered last with index zero if it is new; the others keep their indices |
| Generators.GeneratorsForTest.MoveNext | test/catch.hpp:6131-6139 | The loop over the registered objects realises the mixed-radix increment on their indices and no object is shared |
| Generators.RegisteredExtends | test/catch.hpp:6120-6129 | Registration only appends, never registers a name twice, and every name used is registered |
| Generators.RegisteredIsFirst | test/catch.hpp:6120-6129 | A generator is registered with the size it was first mentioned with |
| Generators.RunBody | test/catch.hpp:5841-5845 | A pass reads, for each use, the index of the generator registered under its name, whenever it was registered |
| CompositeGenerators.CompositeGenerator.Move | test/catch.hpp:1855-1859 | The lists are concatenated and the totals added; the source list is emptied and its total is not |
| CompositeGenerators.CompositeGenerator.ValueAt | test/catch.hpp:1818-1834 | The lookup is indexing in the concatenation of all members' values, and the error branch is taken exactly for an index past its end |
| CompositeGenerators.BetweenElements | test/catch.hpp:1756-1773 | A range holds its numbers in order and no other |
| CompositeGenerators.ValuesElements | test/catch.hpp:1775-1797 | A list of values holds them in order |
| TestSpecs.NameMatches | test/catch.hpp:2750-2773 | A name pattern matches exactly the names that are its text up to case with anything in place of a star at its start or end; a lone star matches all |
| TestSpecs.NameShape | test/catch.hpp:2751-2760 | Which wildcard a token gets, and the text left of it |
| TestSpecs.FilterMatches | test/catch.hpp:2809-2815 | A filter matches exactly if all its patterns do |
| TestSpecs.SpecMatches | test/catch.hpp:2822-2828 | A specification matches exactly if some filter has all its patterns match |
| TestSpecs.Visit | test/catch.hpp:2872-2899 | The position never moves back and a token never begins after it, so no substring is out of range |
| TestSpecs.Scan | test/catch.hpp:2861-2862 | The loop terminates at or past the end of the text, exactly at it when a plain name is being read |
| TestSpecs.TestSpecParser.VisitAll | test/catch.hpp:2861-2862 | The loop over the characters, whose body moves the position too, terminates in the state the parser on values reaches |
| TestSpecs.TestSpecParser.VisitChar | test/catch.hpp:2872-2899 | One character changes all fields as the parser on values does, including the extra step over an opening bracket or quote |
| TestSpecs.TestSpecParser.AddToken | test/catch.hpp:2906-2920 | The token read becomes at most one pattern, excluded by a tilde or the prefix, and the mode is reset |
| TestSpecs.TestSpecParser.EndFilter | test/catch.hpp:2921-2926 | Only a filter with patterns is added |
| TestSpecs.TestSpecParser.TestSpec | test/catch.hpp:2867-2870 | The last filter is closed and all filters are returned |
| ClientOutput.QuotedReadsBack | src/client/nanomsgpp.cpp:77-100 | For every list of byte strings, an unescaper applied to the concatenated quoted outputs gives back that list |
| ClientOutput.QuotedUnique | src/client/nanomsgpp.cpp:77-100 | Two different lists of parts never print alike |
| ClientOutput.BodyIsPrintable | src/client/nanomsgpp.cpp:79-98 | A quoted body is printable ASCII and every quote in it is escaped |
| ClientOutput.OneLinePerPart | src/client/nanomsgpp.cpp:77-99 | A record is one line: printable characters and one final newline |
| ClientOutput.BodySpelled | src/client/nanomsgpp.cpp:79-98 | A body is cut into one form for each byte: a backslash form for newline, return, backslash and quote, the byte itself if it is printable, and two lower-case hexadecimal digits that stand for it otherwise |
| ClientOutput.PlainStays | src/client/nanomsgpp.cpp:79-98 | A part of printable bytes without quotes and backslashes is printed as it is, in quotes |
| ClientOutput.HeaderRebuildsLength | src/client/nanomsgpp.cpp:101-118 | The big-endian length bytes rebuild the length, and the header is the shortest of bin 8, bin 16 and bin 32 that can hold it |
| ClientOutput.BinReadsBack | src/client/nanomsgpp.cpp:101-118 | For every list of byte strings shorter than 2^31, reading the concatenated bin records gives back that list |
| ClientOutput.BinUnique | src/client/nanomsgpp.cpp:101-118 | Two different lists of parts never print alike |
| ClientOutput.PrintMessagePart | src/client/nanomsgpp.cpp:58-121 | Each format writes exactly its encoding: nothing, the bytes, a dot for each byte not printable and a newline, the quoted record, or the bin record |
| ClientOutput.PrintAscii | src/client/nanomsgpp.cpp:67-76 | Every byte is written as itself or as a dot, in order |
| ClientOutput.PrintBody | src/client/nanomsgpp.cpp:79-98 | The loop over the bytes writes the concatenation of their escapes |
| ClientOutput.PrintMsgpack | src/client/nanomsgpp.cpp:101-119 | The bytes written are the header of the length and the part |
| XmlEncoding.DecodeEncode | test/catch.hpp:7635-7657 | Decoding the three entities undoes encoding, for every string |
| XmlEncoding.EntityIs | test/catch.hpp:7640-7650 | The angle bracket, the ampersand and the quote are written as the entities XML predefines, every other character as itself |
| XmlEncoding.EncodedIsPlain | test/catch.hpp:7635-7657 | Encoded text holds no raw angle bracket and no quote |
| XmlEncoding.EncodeCut | test/catch.hpp:7639-7655 | Cutting at the first special character gives the per-character escape map |
| XmlClasses.XmlWriter.WriteEncodedText | test/catch.hpp:7635-7657 | The scan-and-cut loop terminates and writes the per-character escape map of the text |
| XmlReading.ReadStartTag | test/catch.hpp:7536-7536 | A reader of XML text finds a start tag in what is written for an element |
| XmlReading.ReadEndTag | test/catch.hpp:7557-7557 | It takes a written end tag to close the innermost open element |
| XmlReading.ReadComment | test/catch.hpp:7598-7598 | It reads a written comment without its own end as no change |
| XmlWriting.LegalCallKeepsBalance | test/catch.hpp:7533-7607 | Every legal call keeps the output balanced: an independent reader of it finds exactly the writer's elements open, and the indent is twice the depth |
| XmlWriting.LegalRunsAreBalanced | test/catch.hpp:7533-7607 | So does every legal sequence of calls |
| XmlWriting.DestroyedIsComplete | test/catch.hpp:7507-7510 | What the destructor adds closes every open element |
| XmlWriting.WholeDocument | test/catch.hpp:7507-7607 | After any legal sequence of calls and destruction the whole output reads as balanced text with nothing open |
| XmlClasses.XmlWriter.StartElement | test/catch.hpp:7533-7541 | All fields change as on values, and a balanced output stays balanced with one more open element |
| XmlClasses.XmlWriter.EndElement | test/catch.hpp:7549-7561 | All fields change as on values, and a balanced output stays balanced with the last element closed |
| XmlClasses.XmlWriter.WriteAttribute | test/catch.hpp:7563-7570 | Nothing is written for an empty name or value; otherwise a blank, the name, and in quotes a text that decodes to the value |
| XmlClasses.XmlWriter.WriteBoolAttribute | test/catch.hpp:7572-7575 | The value is written as true or false, whatever the name |
| XmlClasses.XmlWriter.WriteText | test/catch.hpp:7584-7594 | Empty text writes nothing; other text closes the tag, is indented only after an open tag, and is encoded |
| XmlClasses.XmlWriter.WriteComment | test/catch.hpp:7596-7601 | A comment closes the tag and is written at the indent |
| XmlClasses.XmlWriter.WriteBlankLine | test/catch.hpp:7603-7607 | A blank line closes the tag |
| XmlClasses.XmlWriter.Destroy | test/catch.hpp:7507-7510 | The loop ends every open element, and the output then reads as complete |
| XmlContents.CollectEndTag | test/catch.hpp:7549-7561 | A collecting reader takes an end tag for the end of the element it names |
| XmlContents.CollectComment | test/catch.hpp:7597-7601 | It takes a comment without its own end for that comment |
| XmlReadBack.CollectAttribute | test/catch.hpp:7563-7583 | From the name of a start tag or behind another attribute it collects the name and what stands between the quotes |
| XmlReadBack.CallReadBack | test/catch.hpp:7525-7607 | After every legal call a reader of the output has collected what was said before and what the call says |
| XmlReadBack.DocumentReadBack | test/catch.hpp:7507-7607 | Of a whole document the reader collects every element with the names and decoded values of its attributes, every comment and every end, in order, and between them all texts that were given, in order and decoded, with nothing but blanks and newlines around them |
| XmlLayout.StartOnOwnLine | test/catch.hpp:7525-7532 | After any legal calls a start tag begins a line, behind two blanks for each open element |
| XmlLayout.EndOnOwnLine | test/catch.hpp:7549-7561 | So does an end tag, behind two blanks for each element around its own |
| XmlClasses.ScopedElement.Copy | test/catch.hpp:7470-7473 | The copy takes over the writer and the original loses it |
| XmlClasses.ScopedElement.Destroy | test/catch.hpp:7475-7478 | The element is ended only by the scope that still holds the writer |
| XmlClasses.Scoped | test/catch.hpp:7543-7547 | The scope is made for the element just started |
| SectionTrie.InsideIsKnown | test/catch.hpp:7308-7331 | Inside a section it and all sections around it have a node |
| SectionTrie.ChildrenAreKnown | test/catch.hpp:7317-7328 | The child lines of a path are exactly the known paths one line longer |
| SectionTrie.ChildrenDiffer | test/catch.hpp:7317-7328 | No line is listed twice under one parent, over any number of passes |
| SectionTrie.AssertionsConserved | test/catch.hpp:7335-7340 | Over all nodes of a well-nested log every assertion is stored exactly once |
| SectionTrie.FreshPathIsEmpty | test/catch.hpp:7322-7325 | A section not begun before has no assertions and no children |
| TotalsDivider.FindMaxIsGreatest | test/catch.hpp:8409-8416 | findMax refers to a greatest value, and if several are to the last of them |
| TotalsDivider.RatiosNearWidth | test/catch.hpp:8405-8408 | The three ratios sum to between 78 and 82, and each is zero exactly for a zero count |
| TotalsDivider.RatioIs | test/catch.hpp:8405-8408 | A bar is the share of the line its count has of the total, rounded down, but never empty for a count |
| TotalsDivider.OnlyTopLowered | test/catch.hpp:8425-8426 | Where the line is too long a bar that was lowered ends at most one below any other |
| TotalsDivider.OnlyGreatestRaised | test/catch.hpp:8423-8424 | Where it is too short only the greatest bar is raised |
| TotalsDivider.Adjust | test/catch.hpp:8423-8426 | Both loops end without underflow with the bars that changing the greatest one by one gives; they sum to 79, no bar becomes or stops being empty, none moves by more than three |
| TotalsDivider.PrintTotalsDivider | test/catch.hpp:8418-8439 | For any counts the bars fill the line, are empty exactly for zero counts and stay within three of their ratio; without test cases one bar fills it |
| CommandLineTokens.NextToken | test/catch.hpp:3541-3562 | What remains of an argument is strictly shorter, so tokenising ends on every argument |
| CommandLineTokens.Parser.CutToken | test/catch.hpp:3541-3562 | One iteration yields the next token and remainder |
| CommandLineTokens.Parser.ParseIntoTokens | test/catch.hpp:3540-3565 | The loop appends the tokens of the argument in order |
| CommandLineTokens.Parser.ParseArguments | test/catch.hpp:3535-3539 | All arguments after the program name up to a double dash are tokenised in order |
| CommandLineTokens.ClusterTokens | test/catch.hpp:3549-3561 | A cluster of letters gives one short option per letter; what follows a separator is tokenised on its own |
| CommandLineTokens.SingleOption | test/catch.hpp:3549-3553 | A letter of its own after a dash is one short option, so the options of a cluster are the tokens of its letters given one by one |
| CommandLineTokens.LongOption | test/catch.hpp:3545-3561 | Two dashes and a name are one long option with that name; what follows a separator is tokenised on its own |
| CommandLineTokens.LongOptionWithValue | test/catch.hpp:3545-3561 | With a blank, a tab, an equals sign or a colon and a value it is that option followed by the positional value |
| CommandLineTokens.PositionalArgument | test/catch.hpp:3541-3544 | An argument without a dash in front is one positional token |
| CommandLineTokens.ArgumentsUpToDashes | test/catch.hpp:3535-3539 | The tokens are those of the arguments before the first double dash, in order |
| CommandLineTokens.ClusterWithValue | test/catch.hpp:3549-3561 | A cluster with a value reads as its letters one by one followed by the positional value |
| CommandLineTokens.DashGivesLongOption | test/catch.hpp:3545-3552 | A dash inside a cluster without separators produces a long option |
| CommandLineTokens.OptionsHoldNoSeparator | test/catch.hpp:3556-3561 | No option token ever holds a separator |
| CommandLineTokens.ClusterIff | test/catch.hpp:3544-3561 | A cluster means its letters one by one if and only if none of them is a separator or a dash |
| BufferLedger.RunKeepsSound | src/nanomsgpp/message.cpp:30-87 | The same over every run of such operations |
| BufferLedger.SelfAssignKeeps | src/nanomsgpp/message.cpp:74-80 | Move assignment of a part to itself changes nothing |
| BufferAccounting.InUseSize | src/nanomsgpp/message.cpp:60-72 | The blocks in use are as many as the parts that hold one plus two per header: none is shared or forgotten |
| BufferAccounting.FreedIsFinal | src/nanomsgpp/message.cpp:60-72 | A freed block stays freed in every later state |
| BufferAccounting.ContentsStay | src/nanomsgpp/message.cpp:30-87 | No operation changes the bytes of a block or who allocated it |
| BufferAccounting.MoveThenDestroy | src/nanomsgpp/message.cpp:30-34 | Moving a part and destroying the rest only renames the owner: no block changes |
| BufferAccounting.WrapNeedsNanomsgBlock | src/nanomsgpp/message.cpp:36-47 | Wrapping an unowned pointer without a copy is freed wrongly exactly if malloc allocated it |
| MessageBuffers.Part.Copy | src/nanomsgpp/message.cpp:36-47 | The new part holds a new block with the bytes copied |
| MessageBuffers.Part.Message | src/nanomsgpp/message.cpp:48-52 | The part holds what nn_allocmsg gave, or null, with the size NN_MSG and nanomsg's deallocator |
| MessageBuffers.Part.Buffer | src/nanomsgpp/message.cpp:54-58 | The new part holds a new block of that size |
| MessageBuffers.Part.Move | src/nanomsgpp/message.cpp:30-34 | The pointer, size and flag go to the new part and the old one holds null |
| MessageBuffers.Part.Assign | src/nanomsgpp/message.cpp:74-80 | The fields change in the order of the code, for self-assignment too; what was held is dropped |
| MessageBuffers.Part.Release | src/nanomsgpp/message.cpp:82-87 | The caller gets the pointer and the part holds null |
| MessageBuffers.Part.Destroy | src/nanomsgpp/message.cpp:60-72 | A held block is freed by the deallocator of its flag, a null pointer by none |
| PartSizes.RunKeepsSizes | src/nanomsgpp/message.cpp:30-87 | Over any run of constructions, moves, assignments and releases a part that holds a block has the size the block came with and the flag of its allocator |
| PartSizes.SizesAre | src/nanomsgpp/message.cpp:30-87 | From the start: the size of a copy or a buffer is the number of its bytes, and that of a part with a message of nanomsg's is NN_MSG, or the size it was last wrapped with |
| PartSizes.NeverWrapped | src/nanomsgpp/message.cpp:36-47 | A block is not such a one if no wrapping names it |
| Messages.ShownRight | src/nanomsgpp/message.cpp:118-135 | An entry of a header shows for a block of malloc its number of bytes, and for a message of nanomsg's NN_MSG, or the size it was last wrapped with |
| Messages.Reallocate | src/nanomsgpp/message.cpp:101-104 | Growth of the vector gives every part to a new one with the same block, size and flag, ends the old ones, and changes no block |
| Messages.Message.Write | src/nanomsgpp/message.cpp:112-116 | A part with its own copy of the data is added and the local part is destroyed without freeing it |
| Messages.Message.GenHeader | src/nanomsgpp/message.cpp:118-135 | The header lists every part's pointer and size in order, which are the sizes of the blocks as above, and its two blocks are the only ones allocated |
| Messages.Header.Free | src/nanomsgpp/message.hpp:34-39 | The deleter frees the vector and the header, each once |
| Messages.Message.Release | src/nanomsgpp/message.cpp:137-143 | Every held block is given up, none freed, and the message is empty |
| Messages.Message.Destroy | src/nanomsgpp/message.cpp:98-99 | Every held block is freed and the message is empty |
| Messages.EndedExactly | src/nanomsgpp/message.cpp:137-143 | Exactly the blocks held change their fate |
| Messages.HeaderCycle | src/nanomsgpp/socket.cpp:142-142 | A header made and freed leaves parts and other headers as they were and two freed blocks |
| Messages.HeapBalance | src/nanomsgpp/message.cpp:30-143 | The accounting holds for the objects after any calls of their methods in any order |
| RunnerModel.Exec | test/catch.hpp:5041-5083 | A check whose failure brings the run to its abort count throws, and the pass aborts only so. On the sections of its course, which are those of the script unless it aborts, a pass moves the tracker exactly as the pass of these sections alone does, throws when that does, and leaves the same sections unfinished in the same order; counts and calls to the reporter only grow |
| RunnerModel.Pass | test/catch.hpp:5111-5164 | A whole pass does to the tracker what a pass of the sections of its course alone does |
| RunnerCounts.ExecHonest | test/catch.hpp:5070-5083 | The counts grow by what the calls to the reporter stand for; every end reports the assertions made since its begin, and one missing exactly if there are none, the option is set and the tracker saw no children |
| RunnerCounts.PassHonest | test/catch.hpp:5111-5164 | In a pass every end of a section is reported honestly in that sense, the test case's own last, which counts the whole pass with its failures as tolerated ones if the test may fail |
| RunnerCounts.PassCounted | test/catch.hpp:5025-5068 | A pass adds every passed assertion once, every failed one once, and exactly one failure more for each end with an assertion missing; the failures are tolerated ones if the test may fail |
| RunnerCounts.PassesClassified | test/catch.hpp:5153-5160 | Over all passes a test that may fail adds no failures and another adds no tolerated ones |
| RunnerCounts.ReplayReported | test/catch.hpp:5145-5149 | Each replayed end reports the section recorded last while the tracker stands in another one, whose children it answers for |
| RunnerCounts.OnlyFirstReplayedMisses | test/catch.hpp:5060-5079 | Of the replayed ends only the first, which reports the outermost section, can have an assertion missing, and has exactly if the option is set, nothing was counted since that section began, and the tracker's innermost section has no children |
| KnownSections.PassFits | test/catch.hpp:4858-4866 | However a pass of a body is cut short, it makes no other section known than those of the body |
| ReplayedMisses.UnwoundChildren | test/catch.hpp:5060-5079 | In any pass that does not abort, the innermost section left has known children exactly if it is no leaf of the body |
| ReplayedMisses.ExecShrinking | test/catch.hpp:5070-5074 | From the innermost section left outwards the counts at the begin do not grow |
| ReplayedMisses.AbortFails | test/catch.hpp:7039-7053 | A pass that aborts has counted its last failure after every section left began |
| ReplayedMisses.EndRightIff | test/catch.hpp:5060-5079 | Of n replayed ends the one number i reports what its section ought to get unless it is the first or the last of several, the option is set, the innermost section has no children, and nothing was counted since the outermost, or the innermost, began |
| ReplayedMisses.ReplayRightIff | test/catch.hpp:5145-5149 | All replayed ends report what their sections ought to get if and only if at most one section is left, the option is not set, the innermost has children, or something was counted since that began |
| ReplayedMisses.PassReplayIff | test/catch.hpp:5111-5164 | In every pass, aborting or not, that is so if and only if at most one section is left, the option is not set, the innermost one left is no leaf of the body, or something was counted since it began; it always is in a pass that aborts |
| ReplayedMisses.RunReplayIff | test/catch.hpp:5111-5164 | In pass i of a script, if it does not abort, the number of sections left and the innermost of them are read off the body, and so is the condition |
| ReplayedMisses.EmptyLeafLost | test/catch.hpp:5145-5149 | As an instance, of a throwing section inside another with the option set and no assertion the outer one, which has a section, is reported with an assertion missing and the inner one, an empty leaf, is not |
| ReplayedMisses.ThrownIsCounted | test/catch.hpp:5126-5150 | An exception that is reported is counted before the sections it leaves end: each of them ends with a failure and none with an assertion missing |
| RunnerFlags.OrdinaryEndsAreRight | test/catch.hpp:5060-5079 | In every pass of every run a section that ends in the ordinary way is taken to have children exactly if its body has sections |
| RunnerFlags.OrdinaryMissesIff | test/catch.hpp:5060-5079 | So such an end has an assertion missing exactly if the option is set, its section is a leaf of the body, and nothing was counted since it began |
| RunnerFlags.TestEndIsRight | test/catch.hpp:5153-5154 | The test case itself is taken to have children exactly if its body has sections, unless the run aborts in the pass |
| RunnerFlags.PassesFamiliar | test/catch.hpp:4995-5001 | After any passes, aborting or not, the tracker knows no sections but those of the script |
| ThrownRuns.LeftBound | test/catch.hpp:5070-5074 | The number of sections an exception leaves, defined from the body, is at most the depth of the run and zero exactly if the run does not throw |
| ThrownRuns.PassLeaves | test/catch.hpp:5070-5074 | In every pass exactly that many sections are unfinished, and they are those around the point of the throw |
| ThrownRuns.ReplayLeavesInnermostFirst | test/catch.hpp:5079-5079 | In the replay the tracker leaves the innermost section first |
| ThrownRuns.ReporterAgreesIff | test/catch.hpp:5145-5149 | In pass i of a body reporter and tracker end the sections in the same order if and only if the body leaves at most one to the exception of that pass |
| ThrownRuns.TwoLeft | test/catch.hpp:5114-5150 | As an instance, a body with one section inside another that throws is passed twice for its one run, the first pass leaves both sections, and reporter and tracker end them in different orders |
| RunnerEvents.PassNestedIff | test/catch.hpp:5111-5164 | Every pass, aborting or not, ends outside all sections, and keeps the calls well nested if and only if the lines of the sections its exception leaves read the same both ways |
| RunnerEvents.LogNestedIff | test/catch.hpp:4997-5001 | The calls of any number of passes of a test case are well nested if and only if that holds in each |
| RunnerEvents.OneLeftIsNested | test/catch.hpp:5145-5149 | Where at most one section is left that condition is met |
| RunnerEvents.LeftInBody | test/catch.hpp:5070-5074 | In pass i, if it does not abort, the sections left are those that the body leaves to that pass |
| RunnerEvents.CrossedEnds | test/catch.hpp:5145-5149 | As an instance, a script that leaves two sections under different lines gives a log that is not well nested |
| ReportedRuns.TestReportedIff | test/catch.hpp:4984-5017 | After any number of passes of any test the reporter has no section open and holds every assertion once; it has held the tree of the sections begun so far after each call if and only if in each pass the lines of the sections left read the same both ways |
| ReportedRuns.LeftByBody | test/catch.hpp:5070-5074 | Up to the first pass in which the run aborts these are the sections the body leaves |
| ReportedRuns.CrossedTest | test/catch.hpp:5145-5149 | As an instance, for a script that leaves two sections under different lines the reporter does not hold that tree |
| ReportedRuns.Deliver | test/catch.hpp:7308-7346 | Given the calls of a test case one by one, the reporter objects hold what the calls make on values; no call finds the section stack empty |
| SectionRunner.RunContext.AssertionEnded | test/catch.hpp:5025-5039 | A passed result counts as passed, a failed one as failed, a suppressed failure not at all, and the reporter is told |
| SectionRunner.RunContext.CheckEnded | test/catch.hpp:7039-7053 | A check counts its result and throws exactly if it failed and the run is then aborting |
| SectionRunner.RunContext.SectionStarted | test/catch.hpp:5041-5059 | A section runs exactly if the tracker lets it; then the reporter is told, and the counts at its begin are kept |
| SectionRunner.RunContext.TestForMissingAssertions | test/catch.hpp:5060-5068 | A failure is added to both counts exactly if nothing ran, the option is set and the tracker's current section has no children |
| SectionRunner.RunContext.SectionEnded | test/catch.hpp:5070-5083 | While an exception unwinds the section is only recorded; otherwise missing assertions are tested for, the section is left, and its statistics go to the reporter |
| SectionRunner.RunContext.InvokeScript | test/catch.hpp:5126-5129 | Running a body through section objects realises the pass on values in tracker, counts and calls, its end at a check that aborts included, with the unfinished sections recorded in unwinding order |
| SectionRunner.RunContext.InvokeSection | test/catch.hpp:6720-6735 | A section object: its body runs only if it was included, and its end is seen once whether or not an exception passes |
| SectionRunner.RunContext.EndUnfinished | test/catch.hpp:5145-5150 | The loop over the unfinished sections in reverse ends each once, and the list is cleared |
| SectionRunner.RunContext.EndTestCase | test/catch.hpp:5153-5163 | The test for missing assertions, the swap of tolerated failures and the two updates give the end of the test case on values |
| SectionRunner.RunContext.InvokeTest | test/catch.hpp:5114-5142 | The guard enters the test case before the body and leaves it before an exception is reported |
| SectionRunner.RunContext.RunCurrentTest | test/catch.hpp:5111-5164 | The methods together carry out one pass and leave nothing unfinished |
| SectionRunner.RunContext.RunTest | test/catch.hpp:4984-5017 | The state is that after the first pass that completes the test case or after which the run aborts, if there is one, and the result tells whether there is. The assertions grow by what the calls of the test say, and by one test case: failed if failed assertions were added, else tolerated if tolerated ones were, else passed |
| SectionRunner.RunTests | test/catch.hpp:5248-5279 | For any list of tests the runner's own sum and the context's totals are those of running each name once, in order, until a test not run yet comes when the run aborts, unless a test comes that does not end; test cases have failed if and only if assertions have |
| TestTallies.TestAdds | test/catch.hpp:5025-5068 | After any number of passes of a test the counts have grown by its passed assertions, and by its failed ones and the ends with one missing, which are failures or tolerated failures |
| TestTallies.VerdictAdds | test/catch.hpp:1644-1653 | The test case counted is failed exactly if there is a failure among the calls that counts, tolerated exactly if there is one that does not, and passed exactly if there is none |
| TestTallies.RunTallied | test/catch.hpp:5248-5279 | Over a run of tests every assertion and every end with one missing is counted once, and there are as many failed, tolerated and passed test cases as tests run with such calls |
| TestTallies.FailedIff | test/catch.hpp:1644-1653 | A run has failed test cases if and only if it has failed assertions, and tolerated ones if and only if it has tolerated ones |
| TestRuns.PassesFollow | test/catch.hpp:4995-5001 | As long as the run does not abort in a pass the tracker goes through the runs of the body |
| TestRuns.CompletedWhenDone | test/catch.hpp:4877-4879 | Then the test case is completed after TotalRuns passes and at no pass before |
| TestRuns.AbortStops | test/catch.hpp:7039-7053 | A pass in which a test whose failures count aborts ends with as many failures as the run aborts at, so it is the last |
| TestRuns.CountedTestEnds | test/catch.hpp:4995-5001 | A test whose failures count ends within TotalRuns passes, whatever the run aborts at |
| TrackerProgress.PassAdvances | test/catch.hpp:4821-4834 | No pass of any course moves a section back in the order from unknown to completed |
| TrackerProgress.NoProgress | test/catch.hpp:4821-4834 | A pass that moves none forward either leaves all sections as they were |
| RunnerRepeats.PassAlike | test/catch.hpp:5111-5164 | Passes from contexts with the same sections and failures lead to the same sections, failures and increments of the other counts, whatever those counts are |
| TestRuns.IdleForever | test/catch.hpp:4995-5001 | After a pass of a test with tolerated failures that leaves all sections as they were, so do all others, and none ends the loop that the first did not |
| TestRuns.EndsInTime | test/catch.hpp:4995-5001 | A loop over the passes that ends at all ends within four times the number of sections and one more |
| TestRuns.EndlessIff | test/catch.hpp:4995-5001 | It never ends if and only if the failures of the test are tolerated and some pass, before which and after which the loop goes on, leaves all sections as they were |
| TestRuns.EndsIff | test/catch.hpp:4995-5001 | Looked at for that many passes, the loop ends if and only if it would after any number of them |
| TestRuns.OneForEachName | test/catch.hpp:5264-5277 | A run counts exactly one test case for each different name it ran; these are all names unless it stopped or is in a test that does not end; if it stopped the failures are as many as it aborts at |
| TestRuns.StoppedStays | test/catch.hpp:5271-5272 | Once a run has stopped no later test adds to it |
| TestRuns.PastAbort | test/catch.hpp:5105-5107 | Once a run has more failures than it aborts at it never stops |
| AbortedRuns.StopsAtCount | test/catch.hpp:7039-7053 | As an instance, of two failing checks in a run that aborts after one only the first is made, and the test ends |
| AbortedRuns.NoTestAfter | test/catch.hpp:5264-5272 | After it no other test is run |
| AbortedRuns.AbortMissed | test/catch.hpp:5060-5068 | As an instance, an empty section and a failing check after it give two failures in a run that aborts after one, and the run goes on |
| AbortedRuns.Endless | test/catch.hpp:4995-5001 | As an instance, the loop over the passes of a tolerated test with an empty section, a failing check and another section never ends in such a run |
| TotalsKeeping.Reclassified | test/catch.hpp:5156-5160 | Moving the failures keeps the assertion total and the passed count and cannot go below the counts at the begin of the pass |
| SectionLog.CompletedIffLeavesHaveRun | test/catch.hpp:4826-4833 | In a body that never throws a discovered section is Completed between two passes exactly when every leaf at it or below it has run |
| Generators.GeneratorInfo.MoveNext | test/catch.hpp:6095-6101 | The index advances in size_t, or returns to zero exactly at the size; a size of zero is met only after going round once |
| Generators.EmptyGeneratorTakesAll | test/catch.hpp:6095-6101 | A generator without values goes through all 2^64 indices, and multiplies the number of passes by that much |
| Generators.RunCombinations | test/catch.hpp:4997-5003 | A body without sections is run exactly once for every combination of indices, in counting order |
| GeneratedRuns.Go | test/catch.hpp:4858-4872 | With generators read between its sections a pass moves the tracker as the sections alone do, and no generator is registered twice |
| GeneratedRuns.GoReads | test/catch.hpp:5841-5845 | Each reading of a pass is the index that its generator has at the end of the pass |
| GeneratedRuns.QuietPass | test/catch.hpp:4858-4861 | A pass that enters no section reads exactly the generators outside all sections, in order |
| GeneratedRuns.LaterCombinations | test/catch.hpp:4995-5003 | After the passes that complete the test case there is one pass for each further combination, in counting order, over the generators known by then |
| GeneratedRuns.LoopsEnd | test/catch.hpp:4995-5003 | The two loops end after exactly the passes of the body plus the combinations less one |
| GeneratedRuns.KnownAreMentioned | test/catch.hpp:6120-6129 | Every generator registered is one the body reads, with its size |
| GeneratedRuns.PassReads | test/catch.hpp:4995-5003 | The passes that run the sections read the first values of all generators; the pass of each later combination enters no section and reads that combination outside them |
| GeneratedRuns.InsideIsFirst | test/catch.hpp:4995-5003 | No section ever reads another value of a generator than the first |
| GeneratedRuns.ValueReadIff | test/catch.hpp:4995-5003 | A later value is read in some pass if and only if the generator has it and is used outside all sections |
| GeneratedRuns.SecondNotRead | test/catch.hpp:4995-5003 | As an instance, a generator of two values inside a section costs a second pass in which nothing is read |
| CompositeGenerators.CompositeGenerator.Add | test/catch.hpp:1836-1839 | One call of the pool of generators: the values grow by the member's values at the end, the total by its size, and whether the total is their number stays as it was |
| CompositeGenerators.CompositeGenerator.ThenValue | test/catch.hpp:1846-1851 | The values grow by one value, and whether the total is their number stays as it was |
| CompositeGenerators.CompositeGenerator.Then | test/catch.hpp:1841-1844 | One call of the pool: the other's values follow; the target's total is right if and only if both were, and that of the emptied other if and only if it was zero |
| CompositeGenerators.CompositeGenerator.Take | test/catch.hpp:1802-1807 | The copy takes the file info, the list and the total, and leaves the list empty |
| CompositeGenerators.CallKeepsMarks | test/catch.hpp:1836-1859 | One call changes the totals and the taint of the generators it names as the rule says |
| CompositeGenerators.ConsistentIffUntainted | test/catch.hpp:1836-1859 | After any sequence of calls on any number of generators the total of each is at least the number of its values, and is that number if and only if the calls left it untainted: a target is tainted by a tainted source, a source by having a total |
| CompositeGenerators.TaintStays | test/catch.hpp:1836-1859 | No later call makes a tainted generator's total right again |
| CompositeGenerators.UsedOnceStaysUntainted | test/catch.hpp:1836-1859 | If nothing moved from is used again, every generator never moved from stays right |
| CompositeGenerators.MovedTwice | test/catch.hpp:1855-1859 | Moving twice from one generator makes the second target wrong if and only if that generator had values |
| TestSpecs.TestSpecParser.ParseText | test/catch.hpp:2856-2866 | Parsing resets mode, exclusion and position, keeps filters read before, and ends in the state of the parser on values of the text with its aliases expanded, a plain name at the end included |
| TestSpecs.ParsePrinted | test/catch.hpp:2856-2926 | Parsing the printed form of any list of filters of quoted names and tags, possibly excluded, gives back their patterns filter by filter; filters without patterns are dropped |
| TestSpecs.ParsePlain | test/catch.hpp:2856-2926 | If no text begins with exclude: and no filter is empty, every term comes back as its own pattern in its own place |
| TestSpecs.TermReadsBackIff | test/catch.hpp:2856-2926 | A quoted name or a tag, excluded or not, reads back as its own pattern if and only if it is not empty, holds its closing character nowhere but as its first, and does not begin with exclude: |
| TestSpecs.CutTerm | test/catch.hpp:2896-2898 | A text that holds its closing character later gives only patterns from shorter texts |
| TestSpecs.EmptyTerm | test/catch.hpp:2877-2898 | An empty term not followed by its closing character gives nothing at all |
| TestSpecs.EmptyTermRunsOn | test/catch.hpp:2877-2898 | An empty term before any text with its closing character is read as the term that begins with that character and runs to the next one |
| TestSpecs.EmptyTagRunsOn | test/catch.hpp:2877-2898 | As an instance, [][a] parses as one tag named ][a |
| SpecGrammar.ParseWritten | test/catch.hpp:2856-2926 | Plain names, quoted names and tags, with blanks before them, excluded by a tilde or the prefix exclude:, with commas between filters and plain names only before a comma, a tag or the end, come back as their patterns, filter by filter |
| SpecGrammar.ParseName | test/catch.hpp:2863-2864 | A plain name that begins like nothing else and holds no comma and no bracket is one filter with its pattern, excluded behind a tilde or the prefix |
| SpecGrammar.ParseOn | test/catch.hpp:2856-2866 | A text parsed after others adds its filters to theirs; its first goes on with the last of them |
| SpecGrammar.ParseArguments | test/catch.hpp:3076-3081 | So the arguments of a command line make one specification, and only a comma begins a new filter |
| TestSpecs.ConfiguredSpec | test/catch.hpp:3076-3081 | The loop over the arguments parses each in turn and closes the last filter |
| TestSpecs.ParseTestSpec | test/catch.hpp:2928-2930 | One text parsed on its own |
| SpecMeaning.NameFitsIff | test/catch.hpp:2750-2773 | A name pattern matches exactly the names that are its text in upper or lower case, with anything in place of a star at its start or end |
| SpecMeaning.TagFitsIff | test/catch.hpp:2787-2794 | A tag pattern matches exactly the test cases with a lower-case tag that is its text in upper or lower case |
| SpecMeaning.SelectsIff | test/catch.hpp:2809-2828 | A written specification selects a test case if and only if in one of its filters that is not empty everything included fits and nothing excluded does |
| PlainText.NothingLost | test/catch.hpp:3226-3270 | Without tabs in two free columns: the pieces of the lines, each with the one space or newline dropped after it, concatenate to the input, so nothing is lost, added or moved |
| PlainText.ContentPreserved | test/catch.hpp:3226-3270 | Without indents, inserted hyphens, spaces and newlines the lines are the input without spaces and newlines |
| PlainText.LinesFit | test/catch.hpp:3226-3270 | Every line, with its indent and inserted hyphen, is at most the width long, holds no newline, and has the first or the later indent |
| PlainText.LimitKeepsPrefix | test/catch.hpp:3226-3270 | The loop without tabs never leaves the remainder, keeps as many lines as the limit, and adds the note exactly if there are more |
| PlainText.NextLine | test/catch.hpp:3231-3269 | Every iteration consumes at least one character of the remainder from its start, so the loop ends |
| TextWrapping.FindLast | test/catch.hpp:3254-3254 | The last wrappable position in the window, or none if there is none |
| TextWrapping.Text.constructor | test/catch.hpp:3217-3271 | For every text and all attributes the lines are those of the wrapping on values from the first indent, a thousand at most, up to where an index leaves the text |
| TextWrapping.Text.Fill | test/catch.hpp:3226-3271 | The loop produces the lines of the wrapping on values, and stops at the limit with the note |
| TextWrapping.Text.CutLine | test/catch.hpp:3231-3269 | One iteration pushes the next line and leaves the rest of the text and the next indent, tabs and the unsigned width included, or fails exactly when the iteration on values does |
| TextWrapping.Text.Measure | test/catch.hpp:3232-3242 | The width up to the limit or the first newline, and the remainder without the last tab of that window, with the width adjusted only in front of a newline |
| TextWrapping.Text.CutAt | test/catch.hpp:3244-3269 | The three ways to cut a line, and the indent each leaves |
| TextWrapping.Text.WrapAt | test/catch.hpp:3253-3264 | The break at the last wrappable character, or a hyphen inside a word |
| TextWrapping.Text.SpliceLine | test/catch.hpp:3273-3276 | A line is pushed and its text removed from the remainder |
| LineBreaks.PieceBreaks | test/catch.hpp:3244-3269 | Up to the free columns or the first newline, a line is all of the text, ends at the newline, or stops before the last of the ten characters at which it may be broken, and drops exactly one space there; it is hyphenated only if none stands behind its first place |
| LineBreaks.LinesBreak | test/catch.hpp:3226-3270 | Every line of a text without tabs is so broken from what is then left of the text |
| LineBreaks.WrapIterates | test/catch.hpp:3226-3270 | Every line of any text, in any width, is so broken from the remainder without the last tab of the line, and leaves the rest and the next indent: of the later lines, the same, or moved by the tab |
| LineBreaks.RenderedIs | test/catch.hpp:3273-3276 | A line is written as the spaces of its indent, its piece of the text and its hyphen; the note is that of the program |
| LineBreaks.TwoWords | test/catch.hpp:3253-3258 | As an instance, hello world in eight columns is wrapped to hello and world |
| TabbedText.TabOverrunsIff | test/catch.hpp:3232-3243 | With a tab in the window the width passes the shortened remainder if and only if the whole remainder fits the line and holds no newline |
| TabbedText.CutFailsIff | test/catch.hpp:3231-3269 | For every indent and width, an iteration uses an index outside the remainder if and only if no column is free and text comes first, or a tab is in what would be the last line |
| TabbedText.OverrunIff | test/catch.hpp:3226-3270 | The loop fails if and only if within its limit it comes to such a remainder, after as many lines as iterations |
| TabbedText.LimitCuts | test/catch.hpp:3227-3230 | A smaller limit keeps the lines there is room for and adds the note exactly if more were to come |
| TabbedText.FittingTabsFailIff | test/catch.hpp:3226-3270 | If every line of the text that holds a tab fits, the loop fails if and only if the text after the last newline holds a tab |
| TabbedText.TextFailsIff | test/catch.hpp:3217-3271 | The constructor then fails if and only if the text after the last newline holds a tab and the thousand lines do not run out before |
| TabbedText.TabbedWordFails | test/catch.hpp:3237-3248 | As an instance, the text a, tab, b is read past its end at once in three columns and more |
| TabbedText.IndentsStayIff | test/catch.hpp:3232-3268 | The unsigned subtraction of the indent from the width never wraps around if and only if the first line is not wrapped at a tab that the later indent moves out of the width |
| TabbedText.WrappedAtTab | test/catch.hpp:3232-3268 | A text without newlines that is longer than the line hangs if and only if its last tab in the line and the later indent add up to more than the width |
| TabbedText.HangingLine | test/catch.hpp:3232-3268 | As an instance, eight letters, a tab and two words with a later indent of five in ten columns make the subtraction wrap around |
| TabbedText.TabbedLinesFit | test/catch.hpp:3226-3270 | As long as no indent passes the width every line fits, tabs or not |
| TabbedText.TabbedContentPreserved | test/catch.hpp:3226-3270 | Whatever the tabs and indents, a text wrapped to its end keeps its content up to blanks and tabs |
| XmlScopes.StepKeepsSound | test/catch.hpp:7464-7493 | Opening, copying and dropping scopes in any order, with other calls between: an end always finds an open element, the writer's tags are the names of the open elements in opening order, and as many are open as scopes hold the writer |
| XmlScopes.ScopesEndOnce | test/catch.hpp:7464-7493 | So over any run; when no scope is left no element is open |
| XmlScopes.DropEndsOwnIff | test/catch.hpp:7475-7478 | While the open elements are the owners', a drop ends the element of its own scope if and only if that was opened last among the owners, and only then are they still the owners' afterwards |
| XmlScopes.OwnEndsIffLastFirst | test/catch.hpp:7464-7493 | Over a whole run every drop of a scope that holds the writer ends the element that scope was made for if and only if these scopes are dropped in the reverse of their opening order |
| XmlScopes.LinedIffLastFirst | test/catch.hpp:7464-7493 | The same condition decides whether the open elements are always those of the scopes that hold the writer |
| XmlScopes.OutOfOrder | test/catch.hpp:7475-7478 | Of two scopes dropped in the order they were opened the first ends the element of the second |
| SectionTrie.EndAllNested | test/catch.hpp:7341-7346 | Any number of ends keep a log well nested if and only if each carries the line of the section then innermost |
| SectionTrie.EndsOutermostFirst | test/catch.hpp:5145-5149 | Any number of ends reported outermost first keep it so if and only if the lines of those sections read the same both ways |
| ReporterShape.FirstWith | test/catch.hpp:7317-7321 | The search finds the first child whose latest statistics carry the line |
| ReporterShape.StackDepth | test/catch.hpp:7329-7345 | The stack is as high as the sections are deep, whatever lines the ends carry |
| ReporterShape.NoAssertionLost | test/catch.hpp:7335-7340 | Each assertion is held by one node, in whatever order sections are ended |
| ReporterShape.StepKeepsIff | test/catch.hpp:7308-7346 | From the tree of the sections one more event leads to the tree of the longer log if and only if it is not an end with another line than its section's |
| ReporterShape.TrieIff | test/catch.hpp:7308-7346 | The reporter holds one node for each section begun, linked and filled as the log says, after each event if and only if each end carries the line of the innermost open section |
| NodeContents.AssertionPlaced | test/catch.hpp:7335-7340 | In its section an assertion stands behind those made before it and before all others |
| NodeContents.ChildPlaced | test/catch.hpp:7322-7325 | A section begun for the first time stands behind the children begun before it |
| NodeContents.LastEndStays | test/catch.hpp:7341-7346 | The statistics of a section are those of its last end |
| NodeContents.BegunStats | test/catch.hpp:7309-7310 | Until it ends they are those of its first begin, without assertions |
| NodeContents.NodeReports | test/catch.hpp:7308-7346 | At the end of any passes, if the reporter mirrors the sections, the node of a section that last ended in its own place has its name and line, the numbers of passed and failed assertions and missing ones between that begin and end, and whether it missed one itself |
| CumulativeReporting.CumulativeReporter.SectionStarting | test/catch.hpp:7308-7331 | For every state the objects change as the nodes on values do: the first child with the line, or a new last child, is pushed and remembered as deepest |
| CumulativeReporting.CumulativeReporter.AcquireChild | test/catch.hpp:7316-7328 | The node of the section that begins, made and linked to its parent only if no child carries its line |
| CumulativeReporting.CumulativeReporter.FindChild | test/catch.hpp:7317-7321 | The search over the child objects finds the first whose statistics carry the line, or null if none does |
| CumulativeReporting.CumulativeReporter.AssertionEnded | test/catch.hpp:7335-7340 | The assertion goes to the end of the list of the innermost open section and nowhere else |
| CumulativeReporting.CumulativeReporter.SectionEnded | test/catch.hpp:7341-7346 | The innermost open section gets the statistics, whatever line they carry, and is popped |
| CumulativeReporting.CumulativeReporter.TestCaseEnded | test/catch.hpp:7347-7357 | The root goes to the finished test cases, the output to the section begun last, and no later event can reach the stored tree |
| BufferLedger.StepKeepsSound | src/nanomsgpp/message.cpp:30-87 | Construction, move, move assignment, release, destruction, header handling, and what the caller and nanomsg do with released and received blocks never free a block twice or with the wrong deallocator, and leave every block in use held by exactly one part or header |
| BufferAccounting.Balance | src/nanomsgpp/message.cpp:30-87 | After any run: blocks allocated = freed + held by parts + two per header + in the caller's hands + dropped by move assignment + taken over by nanomsg |
| BufferAccounting.StepLoses | src/nanomsgpp/message.cpp:74-87 | Exactly a release of a held block, a received one and a move assignment over one from another part add a block that no part will free; exactly freeing such a block, wrapping it again and nanomsg's taking it over take one away |
| BufferAccounting.LeakFreeIff | src/nanomsgpp/message.cpp:60-87 | In a program that destroyed everything every block is freed or nanomsg's if and only if as many blocks were freed by the caller, wrapped again or taken over as were released, received or assigned over |
| BufferAccounting.AssignedOver | src/nanomsgpp/message.cpp:74-80 | As an instance, of two parts with data, one assigned to the other and both destroyed, one block is left that nobody frees |
| BufferAccounting.OverwrittenIsFinal | src/nanomsgpp/message.cpp:74-80 | A block that move assignment dropped is never freed, whatever comes after |
| MessageBuffers.Part.Wrap | src/nanomsgpp/message.cpp:36-47 | Without a copy the part takes the pointer, one released or received before, with the flag of nanomsg's deallocator |
| Messages.Message.AddPart | src/nanomsgpp/message.cpp:101-104 | The part, which may be one of the message, is moved to the end; a full vector moves all parts to new storage and destroys the old ones without freeing, allocating or dropping any block |
| Messages.SendMsg | src/nanomsgpp/socket.cpp:140-148 | Nanomsg is shown the parts in order; whatever it answers the header is freed, the message is empty and its blocks given up; of an accepted message nanomsg takes over what it keeps of its own; the answer -1 is the exception and any other the result |
| Messages.RecvMsg | src/nanomsgpp/socket.cpp:165-207 | A message of one part holds its own copy of the data and nanomsg's buffer is freed with nanomsg's deallocator; the answer -1 is the exception and changes nothing |

## Left out

- TrackerTheorems.RunsUntilCompleted: sibling sections with the same name and line (a section inside a loop) share one tracked section in the program and are not modelled; the body must also be the same in every pass.
- SectionRunner.RunContext.RunTest: the script of a test is fixed and without generators; `GeneratedRuns` has the loop over their combinations. The program stays in a loop that does not end, while the method leaves it after the passes that show that it does not and says so. Counts are unbounded numbers; captured messages, output redirection and durations are left out.
- SectionRunner.RunTests: the tests are given in the order the filter of the specification chose, and are told apart by their names.
- Generators.RunCombinations: bodies without sections, in a run that does not abort; `GeneratedRuns` has the two loops for bodies with sections on values.
- GeneratedRuns.LoopsEnd: the body is the same for every combination and holds no assertions; a run that aborts makes the first of these passes only. Sections are as for `TrackerTheorems.RunsUntilCompleted`.
- CompositeGenerators.CompositeGenerator.Add: totals are unbounded numbers; the wrap-around of `size_t` sums is not modelled.
- TextWrapping.Text.constructor: an indent increased by a tab position is not wrapped at 64 bits; after an index has left the text, where the program throws or its behaviour is undefined, nothing is said. A tab character that is a newline is wrapped as the code does, while the conditions in `TabbedText` are for any other.
- TabbedText.FittingTabsFailIff: a condition on the text alone, for texts whose tabs are in lines that fit; `TabbedText.OverrunIff` is the condition for every text.
- TabbedText.TextFailsIff: the same texts.
- TestSpecs.TestSpecParser.ParseText: the registry of tag aliases is a parameter, and letters are lower-cased in ASCII only.
- SpecGrammar.ParseWritten: a plain name in front of anything but a comma, a tag or the end runs on over it; such texts are not written by the printer.
- NodeContents.NodeReports: the node of the test case itself, whose last end counts one pass, and ends replayed in the place of another section are left to `RunnerCounts.PassHonest` and `ReplayedMisses.RunReplayIff`.
- CumulativeReporting.CumulativeReporter.SectionEnded: the asserted condition, a section that is open, is required, as by `AssertionEnded`; durations and the group and run levels above the test case are left out.
- CumulativeReporting.CumulativeReporter.TestCaseEnded: the asserted conditions, an empty section stack and a section begun, are required.
- XmlWriting.LegalCallKeepsBalance: attributes written while no tag is open, values of unencoded attribute overloads that hold markup, and comments that hold their own end are not legal calls; `]]>` in text and `--` in comments, which XML 1.0 forbids, are not looked at.
- XmlScopes.ScopesEndOnce: between the steps of scopes no element is started or ended on the writer by hand.
- TotalsDivider.PrintTotalsDivider: the product of a count and the console width is not wrapped at 64 bits.
- ClientOutput.PrintMessagePart: `isprint` is that of the C locale; a negative length and the search for a terminating zero in `print_message` are not part of this model.
- MessageBuffers.Part.Copy: `malloc` is taken to succeed, as the code does not look at its result; `nn_allocmsg` may give null.
- MessageBuffers.Part.Wrap: a pointer must be null or a block that nanomsg allocated and the caller answers for, released by a part or received; memory that neither a part nor nanomsg allocated is outside the ledger.
- BufferAccounting.WrapNeedsNanomsgBlock: a pointer to a block of the ledger that no part holds; any other is as for `MessageBuffers.Part.Wrap`.
- MessageBuffers.Part.Destroy: freeing a live nanomsg block is taken to succeed, so the exception in the destructor is not modelled.
- Messages.SendMsg: `nn_sendmsg` is an arbitrary answer and an arbitrary choice of blocks to keep; how nanomsg reads an entry of size NN_MSG, and the nanomsg library itself, are not part of this model.
- Messages.Message.AddPart: growth moves the new part first and then the others, destroying the old ones last; the factor of growth is the standard library's choice and is taken as two.
- Messages.RecvMsg: messages of one part. The branch for several parts reads through pointers into the bytes received, and message move assignment is the standard library's vector assignment; neither is modelled.
- Sockets, polling, devices, timeouts, endpoint map, option and type enums of the library, and the client's option handling and send and receive loops: foreign input and output, or simple lookups.
- Catch's macros, colours, timers, stream redirection, result expressions, alias registry, legacy reporters and console layout: user interface and language plumbing.
- The default specification `~[.]`: it selects by tag, while hidden tests are marked by a property that `[!hide]` sets without the tag, so it is not claimed to select exactly the tests that are not hidden.
