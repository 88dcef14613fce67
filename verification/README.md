# Verified model of the BuildBuddy log pipeline, load generator, flame chart and flag reconciliation

This project models five parts of the repository in Dafny and proves what they promise. Run
`dafny verify dfyconfig.toml` to check all of it.

1. **The streaming terminal emulator and its bounded log window** (`server/terminal`,
   `server/eventlog`). A byte-driven parser with rewinding edits a grid of styled cells, a printer
   turns rows back into ANSI text, and a writer takes finished rows off the top so that only the last
   ones stay editable. The sequences are a subset of ECMA-48 (sections 8.3.117, 8.3.41, 8.3.18 to
   8.3.20 and 8.3.22); bytes decode as in section 3 of RFC 3629.
2. **The event-log protocol**: the loop that stores what the writer hands on, the server's
   `GetEventLogChunk` with its queue of reads in 16-bit arithmetic, the web client that polls, and the
   console client that draws and redraws.
3. **The load generator** of `tools/rbeperf`: interleaved steps of its goroutines over bounded channels.
4. **The flame-chart builder**: call depths by a monotonic stack, and a layout of bars.
5. **Flag and configuration reconciliation**: global flags and per-configuration fields, merged
   repeatedly and in place.

## How it is built

Each file is one module and follows one component of the source. Code that updates state in place is a
class or a method with loops (`screens.dfy`, `parsers.dfy`, `writers.dfy`, `write_loop.dfy`,
`chunk_queue.dfy`, `event_log.dfy`, `tail.dfy`, `console.dfy`, `timelines.dfy`, `flame_chart.dfy`,
`configurators.dfy`, `style_storage.dfy`); it is proved against functions on values, and the properties are
lemmas about those functions. The parser emits operations and the screen carries them out, which is
possible because nothing on the screen influences the parser. What those functions mean is said once more
without them, for whole inputs: `strconv.dfy`, `style_laws.dfy`, `screen_laws.dfy` and `terminal_input.dfy`
for the terminal, and lemmas beside the functions elsewhere.

A screen carries the history of what its rows no longer show: the rows that have gone, how many of them
the 10000-line cap dropped, and whether the cursor was held back at the top of the window after rows had
gone. With it, claims that hold only under conditions become equivalences.

## What the proofs found

Several natural claims are false of the code. The code is modelled as it is; for each claim the condition
under which it holds is proved, and where that speaks of a run, an input on which the claim fails is given.

- *The bounded screen is a window on the untrimmed one* exactly if the cursor was never held back at the top
  of the window after rows had gone (`Windows.BoundedScreenIsWindowExactly`).
- *The flushed bytes and the volatile tail make up what the writer's rows show*, those that have gone and the
  current ones, exactly if the cap dropped no row and no write popped a single row that prints as nothing:
  such a pop goes without its newline (`Conservation.BytesAreConservedExactly`;
  `TerminalExamples.SilentPopLosesNewline`). This is the text of the untrimmed screen unless the cursor was
  held back, in which case text can land on another line (`TerminalExamples.HeldBackCursorMovesText`). A
  writer that retains no row may also have ended the text with a newline.
- *The stored chunks of a closed log make up that text* exactly if, in addition, nobody asked for the id of the
  last chunk after the last output while there was a tail: the question is a write of nothing with an empty
  tail, which makes the loop forget the tail (`WholeLogs.StoredLogIsTheScreenExactly`;
  `TerminalExamples.AskingForgetsTail`).
- *Splitting the input makes no difference* to a parser that began outside an escape sequence exactly if the cut
  falls between characters, and not inside an escape sequence that remembers offsets
  (`StreamingExactly.SplitsAfterExactly`). Even two parsers that agree at a point behave alike from then on
  only outside such sequences (`StreamingExactly.SameFutureExactly`).
- *A chunk is read exactly to its end* unless an escape sequence left over from an earlier chunk turns out to be
  a false alarm, and began so late there that its position, and the width of the character that failed, lie
  past the end of this chunk (`ParserBounds.RunEndsExactly`).
- *Printing and parsing a screen gives it back* exactly if every style that is written out is one that its
  stored codes reproduce (`RoundTrip.PrintedScreenComesBackExactly`;
  `TerminalExamples.ExtendedColorDoesNotComeBack`). A list without 38 and 48 keeps this
  exactly if it contains no zero or amounts to a reset (`Styles.PlainListKeepsFaithful`).
- *A send on the work channel never blocks* exactly if no command fails to start that has more than a
  channel's worth of commands after it. A command that fails to start reports completion twice, so the
  generator then hands out more than the channel holds (`StartFailuresExactly.BlocksExactly`).
- *A load test never deadlocks* exactly if fewer than three commands fail to start that have both more than
  a channel's worth and at least three commands after them (`StartFailuresExactly.DeadlocksExactly`, for
  workloads that can run; `FailedStartsCanDeadlock` is an example). The executor then waits to acknowledge
  a completion, and the generator to send work.
- *A load test always finishes* exactly if, in addition, there are no commands, or `concurrentCommands` and
  `rampUpAmount` are at least 1 (`StartFailuresExactly.AlwaysFinishesExactly`). Without the first condition
  it still finishes under some schedule (`StartFailuresExactly.FinishesExactly`).
- *The results hold each command once* exactly if no command but the last fails to start, and the last one
  does not either unless it is alone or commands run one at a time
  (`ResultsExactly.ResultsAreCompleteExactly`; `StartFailureIsCountedTwice` is an example).
- *A finished log is fetched completely* exactly if the recorded id names a chunk that exists, or says that none
  existed yet, and there are fewer than 65535 chunks (`Tail.FinishedLogIsFetchedExactly`; `Tail.FullLogBreaksClient`).
- *Every reply to a polling client continues the log where the client stands* exactly if none misleads it
  (`Tail.ReplyContinuesExactly` for one reply, `Tail.RepliesAreRightExactly` for all histories). The server
  takes a log for empty if no id is recorded, or if the recorded id says that no chunk existed yet and a
  question whether chunks exist now fails. While the invocation runs, that sends a client back to the first
  chunk, which it then shows twice (`Tail.FailedCheckRepeatsChunk`), unless it is still there, or gets the live
  chunk or an error. After the invocation it ends the client's log early if anything was still to come
  (`Tail.FailedCheckLosesLog`); logs stored only when they are closed keep that recorded id.
- *Decoding a log response by response is decoding it as a whole*, for chunks of whole characters, exactly if no
  response but the first one with any text starts with a byte order mark, which the browser's decoder drops
  (`Readers.TextIsWholeExactly`).
- *Bars do not overlap* exactly if the shown events of each merged thread are pairwise nested or disjoint
  (`FlameChart.ProfileIsDrawnFreeExactly`).
- *Reconciling twice is reconciling once* exactly if flag and field are of the same kind, or the slice
  among them is only read or set to texts without elements (`Reconcile.MergeIsIdempotentExactly`; slices of
  strings have elements in every text, `Reconcile.StringsGrowWhenSet`).
- *After any history of merges, the last configuration, the defaults and the command line determine a flag and its
  field* exactly under that condition, which for a flag that is a slice concerns every configuration
  (`ReconcileHistories.HistoryIsForgottenExactly`).

The console client can leave the last response undrawn when it ends, and draws a blank line for each
empty response. The final bytes of control sequences are upper-cased, and `G` always moves to column 0,
unlike in ECMA-48; the model follows the code.

## Model

| member | source | states |
|---|---|---|
| `Utf8.EncodingRoundTrip` | server/terminal/output.go:66 | a printed rune decodes to itself whatever bytes follow, and its encoding is never cut short |
| `Utf8.FullRuneDecodesAlike` | server/terminal/parser.go:87 | bytes after a complete character do not change how it decodes |
| `Strconv.ParametersAreNotNegative` | server/terminal/screen.go:50-56 | the number of an instruction is never negative, so a cursor move never goes the other way |
| `Strconv.ParsesDecimals` | server/terminal/style.go:117-120 | parsing yields the decimal number that the digits spell if it fits, and tells apart what is out of range and what is malformed |
| `Styles.ApplyColors` | server/terminal/style.go:103-199 | the copy-append-and-loop form computes the style that folding the code list yields |
| `StyleLaws.LastCodeDecides` | server/terminal/style.go:103-199 | for every list and every old style: the last code that concerns an attribute decides it, extended colours included; codes are stored behind the old ones unless one is a reset |
| `Styles.FoldsToMeta` | server/terminal/style.go:103-199 | without 38 and 48, a list sets the attributes code by code, and a zero clears the stored codes |
| `Styles.ReplayAppend` | server/terminal/style.go:39-46 | sending stored codes one by one does what the plain list did at once |
| `Styles.PlainListKeepsFaithful` | server/terminal/style.go:103-199 | a plain list keeps a style reproducible from its codes if and only if it contains no zero or leaves no attribute |
| `Styles.ReplayHasNoExtendedColor` | server/terminal/style.go:39-46 | codes sent one by one never set a 256-colour attribute |
| `Styles.ExtendedColorIsNotFaithful` | server/terminal/style.go:39-46 | a style with a 256-colour attribute is never printed faithfully |
| `Styles.UnfaithfulLists` | server/terminal/style.go:103-199 | 38;5;n for every n and 0;31 leave styles that printing loses |
| `Styles.ColorKeepsPrintableCodes` | server/terminal/style.go:103-111 | stored codes are non-empty instructions of the input |
| `StyleStorage.AppendSlice` | server/terminal/style.go:110 | append leaves the elements within the old length alone, in place or in a new array |
| `StyleStorage.Palette.Color` | server/terminal/screen.go:143-145 | the new style is right and every style in use keeps its meaning, although arrays are shared |
| `Cells.OutputLineAsANSI` | server/terminal/output.go:42-69 | the one-pass printer with its flag writes each row's transitions and runes, then trims |
| `Cells.OutputLineTrimsCells` | server/terminal/output.go:68 | trimming the printed bytes equals trimming unstyled blank cells first |
| `Cells.LineEndsUnblank` | server/terminal/output.go:68 | a printed line ends in no space or tab, and only those are taken from its end |
| `Cells.TrimRowIsMaximal` | server/terminal/output.go:68 | exactly the blank cells at the end of a row go |
| `ScreenSpec.GrowHeightKeepsCursor` | server/terminal/screen.go:84-99 | after growing, the cursor is on a row, on the last one if rows were dropped, and moving it back to the top is never needed |
| `ScreenSpec.Apply` | server/terminal/screen.go:12-177 | any operation keeps x and y non-negative and the rows within the cap, and rows that go are recorded |
| `ScreenSpec.ApplyAllAppend` | server/terminal/parser.go:82-111 | operations of two lists in a row compose |
| `ScreenLaws.SequencesDoAsTheySay` | server/terminal/screen.go:141-177 | A to D move by the decimal value of the first instruction and stop at the edges, G goes to the first column, K blanks exactly the cells it should and no others, M sets the style as its codes say, other letters do nothing |
| `ScreenLaws.RunShows` | server/terminal/screen.go:58-177 | after any operations without elements: cursor and style follow from the operations by folds of their own, and each cell holds what the last operation that wrote or erased it left, and is blank if there was none |
| `ScreenLaws.SameCellsPrintAlike` | server/terminal/output.go:42-69 | rows whose cells show the same print the same |
| `ScreenLaws.OscElementsAreShown` | server/terminal/parser.go:117-156 | a link takes one cell at the cursor; an image or an error message gets a line of its own, which holds nothing else, and the cursor goes to the next one |
| `ScreenLaws.ApcElementsAreShown` | server/terminal/parser.go:158-183 | an element takes one cell at the cursor, and an error message as many as it has runes |
| `ScreenSpec.PopCount` | server/terminal/screen.go:211-224 | popping takes no row from the cursor's on, no row that is to be retained, and all others |
| `Screens.Screen.Clear` | server/terminal/screen.go:30-47 | the in-place loop blanks exactly the cells asked for |
| `Screens.Screen.GrowScreenHeight` | server/terminal/screen.go:84-99 | adds blank rows down to the cursor, and drops rows beyond the cap from the top |
| `Screens.Screen.PopExtraLines` | server/terminal/screen.go:211-224 | takes the finished rows off the top and returns their text |
| `ParserSpec.StepDecreasesPotential` | server/terminal/parser.go:82-111 | every round lowers a bound on the rounds that are left, although rewinding moves the cursor back |
| `ParserSpec.NextEscapeBound` | server/terminal/parser.go:200-204 | when an escape is given up, no other one had begun before the position reached |
| `ParserSpec.RunKeepsValid` | server/terminal/parser.go:245-254 | every sequence sent on has well-formed instructions, even after offsets left over from an earlier chunk |
| `TerminalInput.InputIsUnderstood` | server/terminal/parser.go:82-254 | any input of text, line ends, backspaces, control sequences with any instructions, character sets and payloads asks the screen for exactly what these mean, and leaves nothing open |
| `TerminalInput.TerminalShowsInput` | server/terminal/terminal.go:34-37 | so every cell of a terminal shows what the last such piece that concerns it left there |
| `TerminalInput.FalseAlarmStartsOver` | server/terminal/parser.go:200-204 | an escape that breaks off at a character is read again from the place of the escape character, moved on by as many bytes as that other character has |
| `ParserBounds.RoundsPerChunk` | server/terminal/parser.go:82-111 | at most two rounds per byte from normal mode, three from any mode |
| `ParserBounds.EachPositionIsReadOnceInEachRole` | server/terminal/parser.go:82-111 | whatever an earlier chunk left behind, positions read outside escapes strictly increase, and so do those read inside |
| `ParserBounds.RunEndsExactly` | server/terminal/parser.go:82-111 | where reading a chunk ends, for every state that an earlier chunk has left: at its end, or past it if a left-over escape fails at a character and its recorded start plus the width of that character is further |
| `Parsers.Parser.ParseChunk` | server/terminal/parser.go:82-111 | the mutating loop ends in the specified parser state and screen |
| `Parsers.Parser.HandleOperatingSystemCommand` | server/terminal/parser.go:117-156 | an element or an error message on a line of its own, or nothing |
| `Parsers.Parser.HandleApplicationProgramCommand` | server/terminal/parser.go:158-183 | an element or an error message in place, or nothing |
| `Streaming.StreamingEqualsBatch` | server/terminal/parser.go:82-111 | a cut between characters and outside offsets: same operations, and the parsers end at the same point |
| `Streaming.StreamingShowsTheSameScreen` | server/terminal/terminal.go:34-37 | two writes then show what one write shows |
| `StreamingExactly.SplitsAfterExactly` | server/terminal/parser.go:82-85 | a cut makes no difference to any continuation if and only if it falls between characters and the parser is then in normal or charset mode |
| `StreamingExactly.SameFutureExactly` | server/terminal/parser.go:82-85 | parsers at the same point of differently split input behave alike from then on if and only if their mode uses no offsets |
| `StreamingExactly.CutCharacterDiffers` | server/terminal/parser.go:87 | a cut inside the euro sign turns it into errors |
| `Windows.WritesStayLinked` | server/eventlog/eventlog.go:368-380 | whatever is written, the parsers agree and x and style coincide; rows and y are shifted by the rows that have gone until the cursor is held back |
| `Windows.BoundedScreenIsWindowExactly` | server/eventlog/eventlog.go:368-380 | untrimmed rows are the rows gone followed by the current ones, with the cursor shifted, if and only if the cursor was never held back at the top after rows had gone |
| `Windows.PopCountExactly` | server/terminal/screen.go:211-224 | the number of rows popped is the only one that leaves the cursor row, trims the screen and takes no row to be retained |
| `Windows.OnlyLastRowsStayEditable` | server/eventlog/eventlog.go:368-380 | after any writes at most the retained rows are editable unless the cursor is on the first row, and a write that pops leaves as many; no more than 10000 are kept |
| `Conservation.BytesAreConservedExactly` | server/eventlog/eventlog.go:375-379 | for any number of retained rows and any writes, bytes flushed and tail are the text of the rows gone and the current ones if and only if the cap dropped no row and no write popped a single row that prints as nothing; if the cursor was not held back, that text is the rendering of the untrimmed screen, with a newline at its end if every row has been popped |
| `Conservation.ScreenIsOwedThenTail` | server/eventlog/eventlog.go:375-379 | what was flushed is at most the rows gone, each with its newline; those and the tail are what the untrimmed screen prints unless the cursor was held back |
| `Writers.ANSICursorBufferWriter.Write` | server/eventlog/eventlog.go:368-380 | the write as one step of the specified writer, with the bytes and the tail that it hands on |
| `RoundTrip.TextSends` | server/terminal/screen.go:186-194 | the printed text, when parsed, sends the runes and codes of the cells, and leaves no escape open |
| `RoundTrip.RunesComeBack` | server/terminal/output.go:42-69 | runes come back whatever their styles |
| `RoundTrip.RowComesBackExactly` | server/terminal/output.go:42-69 | a row's attributes come back if and only if each style that is written out is reproducible |
| `RoundTrip.PrintedScreenComesBackExactly` | server/terminal/screen.go:186-194 | parsing what is printed gives back runes and attributes, up to trailing blanks, if and only if the styles written out are reproducible |
| `Reachable.ParseStaysGood` | server/terminal/parser.go:82-111 | any chunk leaves cells with encodable runes and sendable codes, and plain colour lists leave only reproducible styles |
| `Reachable.ReachedScreenComesBack` | server/terminal/terminal.go:39-41 | every screen that input without 38, 48 and zeros in mid-list leaves comes back when printed and parsed |
| `PrintedText.TextIsWhole` | server/terminal/screen.go:186-194 | printed text never ends within a character, whatever the input was |
| `TerminalExamples.SilentPopLosesNewline` | server/eventlog/eventlog.go:375-378 | a newline and a letter written at once, one row retained: the newline is neither flushed nor in the tail |
| `TerminalExamples.HeldBackCursorMovesText` | server/terminal/screen.go:59-65 | two lines and a letter one line up, one row retained: the log shows the letter on the second line, the terminal on the first |
| `TerminalExamples.ExtendedColorDoesNotComeBack` | server/terminal/output.go:12-16 | a letter after ESC[38;5;1m: the printed screen does not come back |
| `TerminalExamples.AskingForgetsTail` | server/backends/chunkstore/chunkstore.go:418-424 | one letter, a question for the last chunk, and the end: one empty chunk is stored |
| `WriteLoops.IterationKeepsBytes` | server/backends/chunkstore/chunkstore.go:478-585 | whatever fails, an iteration adds exactly the bytes of its request; when the loop ends without error everything is stored |
| `WriteLoops.ChunksAreStoredInTime` | server/backends/chunkstore/chunkstore.go:528-562 | with stores that work, a flush that is due empties the buffer and less than a block waits for one; an empty chunk is stored only at the end of a log whose number of chunks is zero or a multiple of 65536 |
| `WriteLoops.SplitChunksAreBlocks` | server/backends/chunkstore/chunkstore.go:465-476 | if writes may be split, all chunks of an iteration but the last are whole blocks |
| `WriteLoops.IterationKeepsPieces` | server/backends/chunkstore/chunkstore.go:465-476 | with unsplit writes that fit in a block, stored chunks consist of whole writes, also after failed stores |
| `WriteLoops.LongWriteIsSplit` | server/backends/chunkstore/chunkstore.go:465-476 | a write longer than a block is cut after the first block |
| `WriteLoops.WriteLoop.Iterate` | server/backends/chunkstore/chunkstore.go:478-585 | the body of the loop refines the specified iteration, and ends |
| `WholeLogs.StoredLogIsTheScreenExactly` | server/eventlog/eventlog.go:346-384 | over any output, failing stores, flushes and questions for the last chunk: the stored chunks of a closed log are that text if and only if nothing was dropped, popped silently or forgotten |
| `WholeLogs.TurnsKeepInStep` | server/backends/chunkstore/chunkstore.go:418-424 | the loop has always taken in what the writer flushed, and holds its tail unless a question for the last chunk made it forget |
| `WholeCharacters.StoredChunksAreWhole` | server/backends/chunkstore/chunkstore.go:465-476 | no stored chunk ends within a character if requests fit in a block |
| `Readers.TextIsWholeExactly` | app/invocation/invocation_logs_model.tsx:57-58 | if no character is split between chunks, text decoded response by response is the text of the whole if and only if no response but the first one with any text starts with a byte order mark |
| `Readers.ReaderSeesTheTerminal` | app/invocation/invocation_logs_model.tsx:46-91 | from the build's output to the reader: a client that was not misled and has stopped has got all stored chunks from the one it began with, and shows their text if and only if no further mark was dropped; if it began with the first and nothing was lost, the chunks are the text of the whole terminal |
| `ChunkStore.Plus` | server/eventlog/eventlog.go:156-172 | adding the step 65535 to an index subtracts one |
| `ChunkStore.GetLastChunkIndex` | server/backends/chunkstore/chunkstore.go:120-139 | finds the last chunk if the recorded one exists, and fails if a question on the way is not answered |
| `ChunkQueues.ChunkQueue.Pop` | server/eventlog/eventlog.go:258-277 | results come in the order asked for under any completion order, at most 16 reads are outstanding, and nothing comes after the end or an error |
| `ChunkQueues.IndexFromCountCountsSteps` | server/eventlog/eventlog.go:238-256 | the index computed from the number of reads is the start moved by that many steps, modulo 65536 |
| `ChunkQueues.NothingPastTheBoundary` | server/eventlog/eventlog.go:238-256 | the k-th result is the chunk k steps from the start and never past the boundary |
| `ChunkQueues.EndAfterTheBoundary` | server/eventlog/eventlog.go:238-256 | the read after the boundary is the end |
| `EventLog.GetEventLogChunk` | server/eventlog/eventlog.go:51-200 | the handler's reply in every case: failed lookup, no log, bad id, failed or negative search for the last chunk, live chunk, past the end, range or read error |
| `EventLog.ReadRange` | server/eventlog/eventlog.go:156-199 | the read loop over 16-bit indices ends and returns the range |
| `EventLogProperties.UpwardsEndIsShortest` | server/eventlog/eventlog.go:156-199 | reading upwards ends at hi if and only if that is the shortest range with enough lines or up to the last chunk, or a chunk needed for it cannot be read |
| `EventLogProperties.DownwardsEndIsShortest` | server/eventlog/eventlog.go:156-199 | the same downwards |
| `EventLogProperties.ServedRangeIsShortest` | server/eventlog/eventlog.go:106-199 | the reply is one ascending range with the ids of its neighbours, in both directions, or an error of a chunk that was needed |
| `EventLogProperties.LiveRepliesExactly` | server/eventlog/eventlog.go:77-139 | a reply is live if and only if the invocation is in progress and the id asked for is that of the live chunk, behind all others; it then holds its buffer and that id |
| `EventLogProperties.ErrorsExactly` | server/eventlog/eventlog.go:51-200 | a reply is an error if and only if something that it needs fails or an id is not acceptable |
| `EventLogProperties.EmptyReplies` | server/eventlog/eventlog.go:93-152 | the neighbours that a reply without content names |
| `Tail.ClientFollowsTheLog` | app/invocation/invocation_logs_model.tsx:46-91 | over any interleaving in which no reply misleads: the stable text is that of consecutive chunks from the first to the one asked for next, and all of them once the client stops |
| `Tail.ReplyContinuesExactly` | server/eventlog/eventlog.go:51-200 | whatever fails and whatever id is recorded, a reply without error holds the live chunk or the next chunks, and the id after them, if and only if it does not mislead; one that misleads is never an error |
| `Tail.RepliesAreRightExactly` | app/invocation/invocation_logs_model.tsx:46-91 | over any history, all replies to a client continue the log where it stands if and only if none misleads it |
| `Tail.PollFollows` | app/invocation/invocation_logs_model.tsx:46-91 | every poll that does not mislead keeps what the client holds right, although the server reads row, store and live chunk at different moments |
| `Tail.PollShows` | app/invocation/invocation_logs_model.tsx:55-85 | after a live reply the client shows the stable text and then the live chunk, and waits; after any other all it shows is stable |
| `Tail.FinishedLogIsFetchedExactly` | app/invocation/invocation_logs_model.tsx:65-91 | after the invocation a client of a readable log stops, complete if and only if the recorded id names a chunk that exists, or says that none existed yet, and there are fewer than 65535 chunks |
| `Tail.FullLogBreaksClient` | server/eventlog/eventlog.go:118-121 | a readable finished log of 65535 chunks on which a client gives up |
| `Tail.FailedCheckRepeatsChunk` | server/eventlog/eventlog.go:66-105 | one failed existence check while no chunk is recorded makes a client show its first chunk twice |
| `Tail.FailedCheckLosesLog` | server/eventlog/eventlog.go:66-105 | the same failure after the invocation: a new client of a readable log stops as complete with nothing |
| `ConsoleStreams.SplitThenJoin` | cli/remotebazel/remotebazel.go:264-275 | splitting into lines loses nothing |
| `ConsoleStreams.WrappingKeepsText` | cli/remotebazel/remotebazel.go:264-275 | pieces are as wide as the terminal but for the last, and adjoin to the line |
| `ConsoleStreams.CannotWrapLongerLines` | cli/remotebazel/remotebazel.go:269 | with a width of 0 only empty lines can be wrapped |
| `ConsoleStreams.SplitLogBuffer` | cli/remotebazel/remotebazel.go:264-275 | the re-slicing loop yields these pieces line by line |
| `ConsoleStreams.LogIsWrapped` | cli/remotebazel/remotebazel.go:264-275 | the console lines of a buffer are its lines in order, each in pieces that adjoin to it and are as wide as the terminal but for the last |
| `ConsoleStreams.LinesOfOne` | cli/remotebazel/remotebazel.go:282-302 | a response that is final, and one that is live, is drawn as its wrapped lines |
| `ConsoleStreams.FinalLinesAdjoin` | cli/remotebazel/remotebazel.go:278-340 | the final responses follow one another on the console, whatever live ones there were between them |
| `ConsoleStreams.LogStream.DrawChunk` | cli/remotebazel/remotebazel.go:282-302 | a response replaces the live one on the console and nothing else |
| `ConsoleStreams.LogStream.StreamLogs` | cli/remotebazel/remotebazel.go:278-340 | the console shows the final responses and then the live one, and at most one response is undrawn |
| `ConsoleStreams.HoldingBack` | cli/remotebazel/remotebazel.go:278-340 | which response is held back, and that nothing is drawn twice or skipped |
| `LoadGenerator.TakeNewWork` | tools/rbeperf/rbeperf.go:430-437 | hands out commands in order, as many as the limit allows |
| `LoadGenerator.RampUp` | tools/rbeperf/rbeperf.go:403-418 | the limits rise in equal steps to the target, in as few steps as that takes |
| `LoadGenerator.StepKeepsInvariant` | tools/rbeperf/rbeperf.go:394-519 | whichever commands fail to start, every step keeps the order of the commands, the account of their completions, the counters, the ramp and the limit, and the limit in force never falls |
| `LoadGenerator.ReportedAdd` | tools/rbeperf/rbeperf.go:155-196 | completions reported and still to be reported are one for each started command, and one more for each that failed to start |
| `LoadGenerator.NothingStartsAfterwards` | tools/rbeperf/rbeperf.go:475-518 | once there is a result for each command, the executor starts nothing and takes no update any more, and can only leave |
| `LoadGenerator.WorkFits` | tools/rbeperf/rbeperf.go:439-441 | what is buffered and still to be sent exceeds the channel's capacity by at most the number of failed starts, so without any a send finds room |
| `LoadRuns.StepGetsCloser` | tools/rbeperf/rbeperf.go:394-519 | every step lowers a measure |
| `LoadRuns.RunsAreBounded` | tools/rbeperf/rbeperf.go:394-519 | no schedule makes a run longer than the measure of its start |
| `LoadRuns.DeadIsWedged` | tools/rbeperf/rbeperf.go:439-490 | a workload that can run deadlocks in one way only: acknowledgement channel and work channel both full, with the executor and the generator waiting for each other |
| `LoadRuns.WedgedHasFailures` | tools/rbeperf/rbeperf.go:155-196 | that takes three failed starts, and enough commands left |
| `LoadRuns.NoDeadlock` | tools/rbeperf/rbeperf.go:420-519 | until the executor has left, some step is enabled if fewer than three of the commands started have failed to |
| `LoadRuns.RampIsFollowed` | tools/rbeperf/rbeperf.go:403-453 | in any run the limit in force is that of the ramp after the limits delivered, and the ramper ends with the target after the least number of them |
| `StartFailures.AreProcessed` | tools/rbeperf/rbeperf.go:394-519 | some schedule processes the commands one after the other, whichever fail to start |
| `StartFailuresExactly.FinishesExactly` | tools/rbeperf/rbeperf.go:394-519 | some schedule reaches the end if and only if there are no commands, or concurrency and ramp step are at least 1 |
| `StartFailuresExactly.BlocksExactly` | tools/rbeperf/rbeperf.go:439-441 | some schedule blocks a send of work if and only if a command fails to start that has more than a channel's worth of commands after it |
| `StartFailuresExactly.DeadlocksExactly` | tools/rbeperf/rbeperf.go:158-164 | some schedule deadlocks if and only if three commands fail to start that have both more than a channel's worth and at least three commands after them, or there are commands and the ramp ends at zero |
| `StartFailuresExactly.AlwaysFinishesExactly` | tools/rbeperf/rbeperf.go:394-519 | every run can go on to the end, whatever its schedule so far, if and only if the workload can run and has no three such failures |
| `StartFailuresExactly.FailedStartsCanDeadlock` | tools/rbeperf/rbeperf.go:158-164 | seven commands, three at a time, of which the first three fail to start: a schedule deadlocks with three commands in the channel and one that cannot be sent |
| `ResultsExactly.ResultsAreCompleteExactly` | tools/rbeperf/rbeperf.go:475-518 | results hold each command once under every schedule if and only if no command but the last fails to start, nor the last one while another can be under way |
| `ResultsExactly.EveryRunFinishes` | tools/rbeperf/rbeperf.go:394-519 | for a workload with a limit that rises: runs are bounded, move until the end unless three failures can wedge them, and end with one result per command unless a failure can be counted twice |
| `ResultsExactly.StartFailureIsCountedTwice` | tools/rbeperf/rbeperf.go:155-196 | two commands of which the first fails to start: a schedule ends with two results for it, and the other is never started |
| `CallDepth.StackHoldsKept` | app/flame_chart/profile_model.ts:121-160 | the stack holds exactly the events that no later event outlasts |
| `CallDepth.DepthCountsOpenEvents` | app/flame_chart/profile_model.ts:136-160 | the depth of an event is the number of earlier events that reach as far as it and everything between |
| `CallDepth.OpenEventsContain` | app/flame_chart/profile_model.ts:38-52 | in sorted events, each of these contains it |
| `CallOverlap.RowsAreDisjointExactly` | app/flame_chart/profile_model.ts:136-160 | events of equal depth are disjoint if and only if the events are pairwise nested or disjoint |
| `CallOverlap.Ancestor` | app/flame_chart/profile_model.ts:136-160 | in every row above an event there is one that contains it |
| `Timelines.MergedExactlyByName` | app/flame_chart/profile_model.ts:107-113 | threads are merged if and only if their names are the same |
| `Timelines.TidOfIsLast` | app/flame_chart/profile_model.ts:107-109 | threads of one name are collected under the one listed last |
| `Timelines.LastNameCounts` | app/flame_chart/profile_model.ts:67-75 | a thread has the name that the profile gives it last |
| `Timelines.ShownEventsAreThoseOfProfile` | app/flame_chart/profile_model.ts:96-113 | which events of the profile are shown, in which order, and with which start, duration, category, name and thread name |
| `Timelines.Group` | app/flame_chart/profile_model.ts:115-169 | the loop yields one timeline per thread with the events, their depths and the greatest depth |
| `Timelines.BuildThreadTimelines` | app/flame_chart/profile_model.ts:92-169 | filter, merge, sort, group and name: the timelines hold exactly the shown events |
| `Timelines.Sorted` | app/flame_chart/profile_model.ts:38-52 | sorting permutes the events and orders them by thread, start and descending duration |
| `FlameChart.BuildFlameChartModel` | app/flame_chart/flame_chart_model.ts:52-98 | the accumulating loop yields the specified sections and bars |
| `FlameChart.BarsAreInSeconds` | app/flame_chart/flame_chart_model.ts:64-78 | one bar for each event, in order, from its start and for its duration in seconds |
| `FlameChart.BarsAreInRows` | app/flame_chart/flame_chart_model.ts:64-90 | 17 pixels per level of depth below 28 of label and padding, and the height that follows |
| `FlameChart.SectionsAreStacked` | app/flame_chart/flame_chart_model.ts:52-98 | sections adjoin without a gap |
| `FlameChart.BlocksAreInSection` | app/flame_chart/style_constants.ts:5-12 | bars lie within their section, below the label and above the padding |
| `FlameChart.ChartIsFreeExactly` | app/flame_chart/flame_chart_model.ts:52-98 | no bars of any sections share area if and only if each thread's events are pairwise nested or disjoint |
| `FlameChart.ProfileIsDrawnFreeExactly` | app/flame_chart/profile_model.ts:92-169 | the same from the profile's events, for any order of the sections |
| `Reconcile.MergeReachesExpected` | server/config/config.go:575-619 | a first or repeated merge makes flag and field what file, default and command line determine, unless a slice grows, and equal if and only if they are of the same kind |
| `Reconcile.MergeIsIdempotentExactly` | server/config/config.go:575-619 | merging twice is merging once if and only if flag and field are of the same kind, or the slice among them is only read or set to texts without elements |
| `ReconcileHistories.ReconcilingForgetsHistory` | server/config/config.go:575-619 | after any merges of any configurations, a flag equals its field in the last one if and only if they are of the same kind, and unless they grow both are those that the last configuration determines |
| `ReconcileHistories.HistoryIsForgottenExactly` | server/config/config.go:575-619 | a flag and its field are the same after all histories that end with a configuration if and only if no configuration that can be merged makes them grow |
| `ReconcileHistories.ReconciledCanReconcile` | server/config/config.go:589-601 | a further merge never cuts into a slice that is too short |
| `Configurators.Configurator.MergeFlag` | server/config/config.go:584-616 | the visit of one flag changes that flag and field as specified, and no other |
| `Configurators.Configurator.ReconcileFlagsAndConfig` | server/config/config.go:575-619 | all flags with a field are merged, and the others are left alone |
| `Configurators.Configurator.MergeIsStep` | server/config/config.go:575-619 | what the method promises is one merge of such a history |

## Left out

- How an OSC or APC payload reads as an element is a parameter; HTML output is not modelled.
- unicode.ToUpper is modelled for a to z: no other rune has a letter that matters as its upper case.
- Windows.BoundedScreenIsWindowExactly: the screen it compares with has no cap on its rows.
- Conservation.BytesAreConservedExactly: if the cursor was held back at the top of the window, the text of the rows is not compared with that of the untrimmed screen; WholeLogs.StoredLogIsTheScreenExactly and Readers.ReaderSeesTheTerminal likewise.
- ScreenLaws.RunShows: for a screen that neither pops rows nor caps their number, to which Windows.BoundedScreenIsWindowExactly relates the log writer's; operations that show elements are described one by one.
- A negative number of rows to retain is left out: the callers pass none, or at least four.
- StreamingExactly.SplitsAfterExactly: for a first piece that begins outside an escape sequence.
- Styles.UnfaithfulLists: lists that contain 38 or 48 without setting a 256-colour attribute are not classified.
- WholeLogs.StoredLogIsTheScreenExactly: says nothing about logs of more than 65536 chunks, whose indices wrap around and overwrite the first ones; chunks are listed in the order in which they are stored.
- Readers.ReaderSeesTheTerminal: for a decoder that reads characters independently and drops a byte order mark from the start of its input.
- WriteLoops.WriteLoop.Iterate: which store fails and when it is time to flush are parameters; channels, contexts and the results sent back are left out.
- The live chunk in the key-value store is arbitrary at any moment; which log output it holds is not modelled.
- Tail.ClientFollowsTheLog: the database row, the store and the live chunk are read in this order, each at one moment.
- ChunkQueues.ChunkQueue.Pop: completion of reads is modelled as any reads finishing before a result is received; time is not modelled.
- Lines of a chunk are counted by an arbitrary function; ids are the indices that they encode; access checks, databases, blob stores and gRPC are left out.
- ConsoleStreams.LogStream.StreamLogs: one console row per wrapped piece; the terminal's own wrapping and resizing are left out.
- ResultsExactly.EveryRunFinishes: the number of EXECUTING updates of a command is fixed beforehand, and a command may complete without having sent them; statistics are left out, and a time limit is a completion like any other.
- Timelines.BuildThreadTimelines: every shown event's thread must be named; the id of an unnamed thread becomes undefined, which makes the order of the sort depend on the engine. A name given without a thread id is skipped, although the code files it under undefined, so that a thread of the same name can become undefined as well. The normalisation of names is a parameter.
- FlameChart.ProfileIsDrawnFreeExactly: the final order of the sections is any reordering, colours are left out, and a negative threshold is allowed only if no event shown has a negative duration.
- Times are real numbers, so rounding is not modelled.
- ReconcileHistories.ReconcilingForgetsHistory: starts from maps of names to scalars or slices, a field being of the same type in all configurations, and slices on both sides having elements of one type; reflection, YAML decoding, the format of scalars and errors of setting one are left out.
- Reconcile.MergeIsIdempotentExactly: how a text reads as elements, and how elements are written, is a parameter of the slice; JSON is left out.
