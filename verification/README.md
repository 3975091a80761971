# Verification of the course programs

Five independent C programs, each modelled in Dafny and proved correct:

* `HW 5/pCp.c` copies a directory with one producer thread and any number of consumer threads
  around a ring buffer guarded by one mutex and two condition variables.
* `HW4/biboServer.c` serves files by line number (`readF`, `writeT`) to concurrent clients.
* `HW1/appendMeMore.c` adds bytes to a file, possibly several processes at once.
* `MIDTERM PROJECT/biboServer.c` queues clients in a circular array and keeps a table of files.
* `HW2/ersoy_burak_1901042703.c` reads a command line word by word and fires a command at each `|`.

`dafny verify dfyconfig.toml` checks everything.

## How it is organised

| file | content |
|---|---|
| `Posix.dfy`, `Options.dfy` | bytes, `write` at an offset; optional values |
| `RingBuffer.dfy` | the circular array of HW 5 as a class `Buffer`, assignment by assignment; reused for the client queue |
| `CopyLoop.dfy` | the read/write loop of HW 5 in place |
| `CopyModel.dfy` | HW 5 as a transition system: one action for each C statement that touches shared state |
| `CopyData.dfy`, `CopySteps.dfy` | the data half of its invariant and its preservation inside the critical sections |
| `CopyCounting.dfy`, `CopyInvariant.dfy` | sums over threads; the full invariant |
| `CopyTheorems.dfy`, `CopyTermination.dfy` | results for every run |
| `CopyStarvation.dfy` | exactly when a run can get stuck |
| `LineStore.dfy` | `fgets` pieces, `readF` and `writeT` of HW4, class `Server` |
| `WriteLock.dfy` | the mutex around `writeT`, one action for each library call |
| `WriteTermination.dfy` | how long its runs are and exactly when one gets stuck |
| `Appenders.dfy` | HW1: every interleaving of any number of processes; class `File` |
| `ClientQueue.dfy`, `FileTable.dfy` | the midterm server's queue and table, classes `Segment` and `Table` |
| `CommandLine.dfy` | HW2's loop, class `Shell`, and the pipelines it runs |

Concurrent programs are transition systems (`Init`, `Enabled`, `Do`, `Run`); a result holds for
every `Run`, that is for every interleaving and every choice of the environment. Code that changes
objects in place is a class whose methods are proved against functions of the old state; the
transition systems use the same functions. History variables (`q`, `outs`, `acquired`, `accepted`,
`rejected`, `calls`) record what happened; no program variable depends on them.

## Assumptions

* HW 5: `opendir` and thread creation succeed (line 132 would return without setting `done`). The
  names of the two directories differ as strings, entry names are distinct and contain no `/`, and
  paths fit their 512 bytes (`ValidConfig`). The two names must also stand for different
  directories, and no source may be the same file as a destination: `s` and `./s` differ as strings,
  and an entry of the destination may be a link to a source, but a caller has to avoid both, since
  paths are compared as strings here. `open` may fail at any time or return any unused number; `read` may
  deliver any positive part of the request; the bytes of a path are those `read` yields before it
  first returns 0 or -1; `write` is complete. `pthread_cond_signal` wakes at least one sleeper if
  there is any, as System Interfaces of IEEE Std 1003.1-2017 says, so possibly several. Spurious
  wakeups are allowed everywhere except in the step bound. The capacity is a parameter; the code
  fixes it to 10 and never reads `argv[1]`. Zero consumers are covered, taking the array of no
  thread ids in `main` (line 203) as harmless.
* HW4: files are cut by `fgets` (section 7.21.7.2 of ISO/IEC 9899:2011). A `writeT` text is a
  nonempty C string, of at most 255 bytes when it may replace a line (`ValidRequest`), and the line
  number is not negative (a negative one would index before the rows). For `Server.WriteT` a file
  whose line is replaced has at most 1000 rows; in the concurrent model the client stops there. A
  whole-file answer fits its 1024-byte buffer. Opening files succeeds. Output that `fprintf` has
  taken may reach the file at any moment up to `fclose`.
* HW1: writes succeed and counts fit an `int`. An O_APPEND `write` is one atomic action, the `x`
  mode is `lseek` and then `write`.
* Midterm: each queue operation and each request is atomic. The shared segment is new, so zeroed:
  `shmget` would also attach one left by an earlier server. A refused pid is recorded and the server
  lives on; but `kill(pid, SIGUSR2)` (line 165) with the pid 0, which `waitpid` returns while
  children run, signals the server's own process group. `fork` may fail at any call. An upload of a
  new name happens with fewer than 100 files. What a requested name resolves to in the server
  directory (`Path`) and whether `open` or `unlink` succeeds is up to the environment; nobody else
  changes the directory.
* HW2: every `>` and `<` is followed by a word, and at most 19 words are pending. `strtok` is
  section 7.24.5.8 of ISO/IEC 9899:2011.

## What the proofs found

* HW4: the client removes the newline from what it sends, so a text for a line that is not the last
  runs into the next line. `ReplaceIsExact` says exactly which texts replace just their line,
  `NewlineFreeTextMerges` what happens otherwise.
* HW4: a file with a NUL byte loses bytes when it is reprinted, and only such a file
  (`ReprintRestores`).
* HW1: in `x` mode bytes get lost. `PossibleSizes` gives exactly the final sizes that can occur.
* HW4: a client whose request replaces a line of a file of more than 1000 rows overflows its array
  of rows while it holds the mutex, and only such a client (`HolderOutcome`). Some run gets stuck
  exactly if some interleaving of the requests comes to that (`StuckExactlyWhenTooLong`,
  `OverflowExample`); all other runs end with every request done (`StoppedIsDone`,
  `WriteTermination.EveryRunIsShort`).
* Midterm: the handler enqueues the result of `waitpid`, not the sender of the signal, so the pid
  can be -1 and the loop then forks for -1 (`ForksForMinusOne`). It does so exactly if `waitpid`
  returned -1 while fewer than ten clients waited (`ForksOnlyAccepted`, `MinusOneIsForked`).
* Midterm: a client whose `fork` fails is dropped (`ForkFailureDrops`): `fork` is called once for
  each, so the k-th accepted client gets a child exactly if the k-th call succeeds (`ForksDecided`).
* Midterm: `upload_file` and `download_file` let table and directory get out of step when an
  upload's `open` fails, when the new name contains a `/` or names a link or another special entry,
  or when `unlink` fails, and in no other case (`ApplyKeepsConsistent`, `RunKeepsConsistent`). Uploading and downloading `./a` deletes a
  listed file `a` (`OtherSpelling`); `DownloadUndoesUpload` says exactly when nothing is lost.
* HW2: on a line that begins with the word `:q` everything but the last command is executed
  (`LineMeansPipeline`); with a space before it the line does not quit (`QuitsIsFirstWord`).
* HW 5: without consumers the producer can wait for ever on a full buffer. Some run gets stuck
  exactly if there is no consumer and, of the entries before the last, those that can be opened are
  at least as many as the buffer has slots (`StuckExactlyWhenOverfull`, `StuckExample`): the wait
  comes before the `open`, so the entry that waits need not exist.

## Model

| member | source | states |
|---|---|---|
| Posix.WriteAtReadBack | HW1/appendMeMore.c:57-58 | a write reads back, keeps every other byte, and leaves zeros in a gap behind the old end |
| RingBuffer.RepresentsIsContents | HW 5/pCp.c:17-31 | the array stands for exactly one queue: `count` cells from `out`, with `in` = (`out` + `count`) mod capacity |
| RingBuffer.Buffer.constructor | HW 5/pCp.c:36-44 | an initialised buffer is empty and not done |
| RingBuffer.Buffer.Put | HW 5/pCp.c:77-83 | on a buffer that is not full, the slot is appended to the queue |
| RingBuffer.Buffer.Peek | HW 5/pCp.c:103-105 | the slot at `out` is the oldest one |
| RingBuffer.Buffer.Drop | HW 5/pCp.c:119-120 | the oldest slot, and nothing else, leaves the queue |
| CopyLoop.Copy | HW 5/pCp.c:107-112 | whatever short counts `read` returns, the destination ends up with the source's bytes |
| CopyData.JoinPathInjective | HW 5/pCp.c:140-144 | paths built from different directories or names differ |
| CopyData.JobsDistinct | HW 5/pCp.c:138-147 | as path strings, no destination is written twice and no destination is a source |
| CopyData.SequentialFrame | HW 5/pCp.c:138-147 | the sequential loop changes only destinations of successful entries |
| CopyData.SequentialEffect | HW 5/pCp.c:107-112 | the sequential loop gives each successful destination its source's original bytes |
| CopySteps.OpenDestination | HW 5/pCp.c:68-70 | truncating the new destination disturbs no slot that waits and no finished copy |
| CopySteps.CloseAfterFailure | HW 5/pCp.c:70-75 | after a failed second open the source is closed, the entry counts as failed, no file changes |
| CopySteps.Enqueue | HW 5/pCp.c:77-83 | raising `count` is the moment the next undecided entry joins the queue |
| CopySteps.Write | HW 5/pCp.c:110-112 | each chunk extends the copied prefix of the source |
| CopySteps.Dequeue | HW 5/pCp.c:114-117 | at the completion line the oldest slot's copy is final |
| CopyInvariant.StepKeepsGood | HW 5/pCp.c:52-174 | the whole invariant survives every action of every thread and every spurious wakeup |
| CopyTheorems.CompletedRunIsSequential | HW 5/pCp.c:52-218 | every completed run leaves the files a sequential loop would leave, reports each successful entry once and in readdir order, and has closed every descriptor |
| CopyTheorems.CompletedRunContents | HW 5/pCp.c:137-148 | for every entry but `.` and `..`: if both opens succeeded the destination holds the source's bytes, else it is as before; no path that such an entry does not name changes |
| CopyTheorems.CompletedRunDecides | HW 5/pCp.c:61-148 | every entry but `.` and `..` is decided once, and succeeds if and only if its own two calls of `open` did |
| CopyTheorems.DotsUntouched | HW 5/pCp.c:139-141 | nothing is copied onto `.` or `..` |
| CopyTheorems.NoDeadlock | HW 5/pCp.c:56-58 | in every reachable state that is not finished some thread can move without a spurious wakeup |
| CopyTheorems.NoLostWakeup | HW 5/pCp.c:85-122 | with the mutex free, min(consumers, waiting slots) consumers are awake, a sleeping producer faces a full buffer, and after `done` nobody sleeps |
| CopyTheorems.MutualExclusion | HW 5/pCp.c:53-170 | no two threads are between lock and unlock |
| CopyTheorems.StepRefinesFifo | HW 5/pCp.c:52-124 | each action is one operation of an atomic bounded queue or none |
| CopyTheorems.RunSimulatesFifo | HW 5/pCp.c:52-158 | every run is a run of that atomic queue |
| CopyTheorems.RingIsFifo | HW 5/pCp.c:77-120 | with the mutex free, `count` is in range, `in` is (`out` + `count`) mod capacity, and copied then queued is everything enqueued, in order |
| CopyTheorems.DescriptorBound | HW 5/pCp.c:61-79 | at every action at most 2 * capacity descriptors are open, and opens are closes plus open descriptors |
| CopyTheorems.EveryCloseSucceeds | HW 5/pCp.c:72-116 | every `close` closes a descriptor that is open, so none is closed twice |
| CopyTheorems.ExitIsFinal | HW 5/pCp.c:165-170 | a consumer leaves only when `done` holds and nothing waits, and nothing changes from then on |
| CopyTermination.StepLowers | HW 5/pCp.c:89-174 | every action but a spurious wakeup lowers an explicit measure |
| CopyTermination.EveryRunIsShort | HW 5/pCp.c:126-174 | a run has at most entries * (30 + 14 * consumers) + 2 * bytes + 28 * consumers + 5 actions |
| CopyTermination.StuckIsFinished | HW 5/pCp.c:212-218 | a run that cannot go on has joined all threads, or has no consumer and a producer on a full buffer |
| CopyStarvation.StuckExactlyWhenOverfull | HW 5/pCp.c:53-61 | some run gets stuck if and only if there are no consumers and at least capacity many of the entries before the last can be opened |
| CopyStarvation.StuckExample | HW 5/pCp.c:56-57 | one slot, no consumer, two entries of which the first exists: a run that gets stuck |
| LineStore.SplitSound | HW4/biboServer.c:81-83 | the pieces `fgets` delivers are well formed and concatenate to the file |
| LineStore.SplitComplete | HW4/biboServer.c:123-134 | splitting the concatenation of any well-formed piece list gives that list back |
| LineStore.SplitCharacterised | HW4/biboServer.c:123-134 | a list is a splitting of some file if and only if it is well formed |
| LineStore.NewlineEndsLine | HW4/biboServer.c:81-83 | the byte 10 ends a line |
| LineStore.LongLineIsCut | HW4/biboServer.c:122-125 | a line of 256 bytes is read as 255 bytes and one |
| LineStore.ReprintRestores | HW4/biboServer.c:125-134 | cutting a file into rows and printing them restores it if and only if it has no NUL byte |
| LineStore.PrintReplaced | HW4/biboServer.c:128-134 | with a row replaced, the rows before it are printed, then the text, then the rows behind |
| LineStore.Server.ReadF | HW4/biboServer.c:73-99 | `readF` finds no file if and only if there is none, answers line 0 with all rows, lines in range with that row up to its first NUL, and any other with that line not found |
| LineStore.Server.ReadLine | HW4/biboServer.c:86-96 | the counting loop finds line n if and only if the file has n lines |
| LineStore.Server.WriteT | HW4/biboServer.c:109-142 | `writeT` creates a missing file with the text, appends it for line 0, for a line in range prints the rows before, the text and the rows behind, and else leaves the files alone |
| LineStore.Server.LoadRows | HW4/biboServer.c:123-127 | the `fgets` loop stores all pieces in order |
| LineStore.Server.PrintRows | HW4/biboServer.c:132-134 | the `fprintf` loop writes all rows in order |
| LineStore.CreateReadsBack | HW4/biboServer.c:110-114 | a missing file is created with the text, reads back whole, and no other file changes |
| LineStore.ReplaceIsExact | HW4/biboServer.c:128-135 | replacing a line replaces exactly that row if and only if the text is one piece that is closed or becomes last |
| LineStore.ReadOverWrite | HW4/biboServer.c:85-134 | with a text whose only newline is its last byte, that line reads as the text, all others as before, and their number stays |
| LineStore.EarlierLinesKept | HW4/biboServer.c:128-135 | lines before the written one read as before whatever the text |
| LineStore.RewriteResplits | HW4/biboServer.c:128-135 | from the written line on, the file is split afresh |
| LineStore.NewlineFreeTextMerges | HW4/biboServer.c:128-135 | a text without newline merges with the next line and moves the later ones up, if and only if both fit one row |
| LineStore.OutOfRangeUnchanged | HW4/biboServer.c:128-138 | a text that differs from what it replaces leaves the files alone if and only if the line is beyond the last |
| LineStore.AppendedLines | HW4/biboServer.c:118-121 | appended text starts a new line if and only if nothing or a closed row precedes it |
| WriteLock.ReadingKeepsProgress | HW4/biboServer.c:109-127 | finding out what to write leaves the files as they were when the mutex was taken |
| WriteLock.WritingKeepsProgress | HW4/biboServer.c:128-142 | each truncating, printing, closing call stays on the way to the serial result |
| WriteLock.FlushKeepsProgress | HW4/biboServer.c:113-141 | output that reaches the file early does not change the result |
| WriteLock.Serialisable | HW4/biboServer.c:109-142 | with the mutex free, every file is what the writes give one by one in lock order, which keeps each client's order |
| WriteLock.OneWriteAtATime | HW4/biboServer.c:109-142 | when one request took the mutex between two moments at which it is free, it was its client's next one and the files differ by exactly that write |
| WriteLock.OneWriter | HW4/biboServer.c:109-142 | never two clients inside the locked part |
| WriteLock.OtherFilesUntouched | HW4/biboServer.c:109-142 | during a write all other files have their serial content |
| WriteLock.AppendsAllKept | HW4/biboServer.c:118-121 | appends done one by one all end up in the file, once each, in that order |
| WriteTermination.ConcurrentAppends | HW4/biboServer.c:109-142 | over every run of clients that append to one file, it is its old content and all texts taken, once each, whenever the mutex is free; a run that nothing can continue has taken all, every client's in order |
| WriteTermination.EveryRunIsShort | HW4/biboServer.c:109-142 | however calls and early output interleave, a run has at most requests * 257009 + bytes of text actions |
| WriteTermination.HolderOutcome | HW4/biboServer.c:123-142 | whoever holds the mutex fills the array of rows if and only if its request replaces a line of a file of more than 1000 rows, and otherwise releases the mutex |
| WriteTermination.StuckExactlyWhenTooLong | HW4/biboServer.c:122-127 | some run gets stuck if and only if some interleaving of the requests, done one by one, comes to replace a line of a file of more than 1000 rows |
| WriteTermination.StoppedIsDone | HW4/biboServer.c:109-142 | a run that nothing can continue has done all requests if and only if each one it took fits |
| WriteTermination.OverflowExample | HW4/biboServer.c:122-127 | a file of 1001 empty lines and one request for its first: a run that gets stuck |
| Appenders.OnlyLettersAdded | HW1/appendMeMore.c:49-60 | at all times the file is its old content and then bytes 105, and pending offsets lie behind the process's own bytes and within the file |
| Appenders.RunsEnd | HW1/appendMeMore.c:49-60 | a run has one call for each O_APPEND byte and two for each other, and stops when all have finished |
| Appenders.RunLength | HW1/appendMeMore.c:49-60 | a run is complete if and only if it has one call for each O_APPEND byte asked for and two for each other |
| Appenders.FinalSizeBounds | HW1/appendMeMore.c:49-60 | the file grows by at least the larger of all O_APPEND bytes and any one `x` count, and at most by all counts |
| Appenders.AppendOnlyIsExact | HW1/appendMeMore.c:31-53 | with O_APPEND everywhere the file grows by exactly the sum |
| Appenders.Round | HW1/appendMeMore.c:55-59 | processes that seek together add one byte between them |
| Appenders.PossibleSizes | HW1/appendMeMore.c:31-60 | a final size occurs in some interleaving if and only if it is within those bounds, for any processes and modes |
| Appenders.File.AddBytes | HW1/appendMeMore.c:49-60 | alone, either mode adds exactly the number of bytes given, none for a negative number |
| ClientQueue.EnqueuedContents | MIDTERM PROJECT/biboServer.c:157-166 | `enqueue` appends unless the queue is full |
| ClientQueue.DequeuedContents | MIDTERM PROJECT/biboServer.c:182-189 | `dequeue` takes the oldest client, or gives -1 on an empty queue |
| ClientQueue.Segment.Enqueue | MIDTERM PROJECT/biboServer.c:148-170 | the client is accepted if and only if fewer than ten wait, and then waits last |
| ClientQueue.Segment.Dequeue | MIDTERM PROJECT/biboServer.c:173-195 | the oldest client leaves, or -1 |
| ClientQueue.QueueIsFifo | MIDTERM PROJECT/biboServer.c:72-205 | over every run, the clients `fork` was called for, in hand and waiting are exactly the accepted ones in order |
| ClientQueue.RejectedExactlyWhenFull | MIDTERM PROJECT/biboServer.c:157-166 | at any moment of a run a signal's client joins behind all accepted ones, or behind all rejected ones if and only if ten are waiting |
| ClientQueue.SignalsDecided | MIDTERM PROJECT/biboServer.c:137-170 | over every run the accepted and the rejected are together the signals in order, told apart by counting the waiting alone |
| ClientQueue.BurstFillsQueue | MIDTERM PROJECT/biboServer.c:137-170 | of the signals of a burst the first ten are accepted and all others refused |
| ClientQueue.ForksOnlyAccepted | MIDTERM PROJECT/biboServer.c:72-88 | `fork` is called only for accepted clients; -1 is or will be among them if and only if `waitpid` gave -1 while fewer than ten waited |
| ClientQueue.MinusOneIsForked | MIDTERM PROJECT/biboServer.c:72-88 | once the loop has caught up, it has forked for -1 if and only if -1 was enqueued |
| ClientQueue.ForksForMinusOne | MIDTERM PROJECT/biboServer.c:137-139 | one signal with no child to wait for and three steps of the loop: a fork for -1 |
| ClientQueue.ForksDecided | MIDTERM PROJECT/biboServer.c:74-87 | over every run the k-th accepted client gets a child if and only if the k-th `fork` succeeds |
| ClientQueue.ForkFailureDrops | MIDTERM PROJECT/biboServer.c:76-87 | one client, one failing `fork`, and no further call for it without a further signal |
| ClientQueue.EveryoneIsServed | MIDTERM PROJECT/biboServer.c:72-92 | from every reachable state, three loop steps for each waiting client reach all accepted ones in order, whatever signals interleave and whether or not `fork` fails |
| FileTable.Table.constructor | MIDTERM PROJECT/biboServer.c:207-231 | the table lists the regular files in directory order |
| FileTable.RegularOne | MIDTERM PROJECT/biboServer.c:215-216 | an entry is listed if and only if it is a regular file |
| FileTable.RegularJoins | MIDTERM PROJECT/biboServer.c:215-222 | the listing keeps the order of the directory |
| FileTable.Table.Search | MIDTERM PROJECT/biboServer.c:436-442 | the search loop finds the first row with the name |
| FileTable.Table.UploadFile | MIDTERM PROJECT/biboServer.c:429-468 | a known name changes nothing; a new one gets the last row, with the descriptor of `open`, and only what it resolves to is created |
| FileTable.UploadAppends | MIDTERM PROJECT/biboServer.c:448-464 | the old rows stay in front and the new row has the name and the descriptor of `open` |
| FileTable.DescriptorKept | MIDTERM PROJECT/biboServer.c:448-526 | over every run each row holds the descriptor of the upload that made it, or of the listing |
| FileTable.Table.DownloadFile | MIDTERM PROJECT/biboServer.c:481-533 | an unknown name changes nothing; for a known one its first row goes, and only the entry it resolves to when `unlink` succeeds |
| FileTable.Table.ShiftLeft | MIDTERM PROJECT/biboServer.c:521-524 | the shift loop removes exactly one row and keeps the others in order |
| FileTable.ApplyKeepsConsistent | MIDTERM PROJECT/biboServer.c:429-533 | a request keeps names distinct and equal to the directory's regular files, if and only if a new name is plain, is no special entry and opens, and a downloaded file is unlinked |
| FileTable.RunKeepsConsistent | MIDTERM PROJECT/biboServer.c:429-533 | over every serial run, names stay distinct and are the directory's regular files after each request if and only if each request meets that condition in its state |
| FileTable.ListingIsConsistent | MIDTERM PROJECT/biboServer.c:215-226 | listing a directory gives such a table |
| FileTable.LastRequestDecides | MIDTERM PROJECT/biboServer.c:429-533 | in such a run a file is there if and only if the last request about it uploaded it, or there was none and it was there |
| FileTable.DownloadUndoesUpload | MIDTERM PROJECT/biboServer.c:448-526 | downloading a fresh upload restores table and directory if and only if the removed entry was not there before, or none is removed and no file was created; for a plain name, unless it is a special entry |
| FileTable.OtherSpelling | MIDTERM PROJECT/biboServer.c:436-526 | with `a` listed, uploading `./a` adds a second row for the same file and downloading it deletes `a` |
| FileTable.DownloadRemovesOne | MIDTERM PROJECT/biboServer.c:518-526 | a download removes that name only and keeps the order of all others |
| CommandLine.Tokenizer.Next | HW2/ersoy_burak_1901042703.c:49-86 | each `strtok` call returns the next word of the line |
| CommandLine.LeadingSpace | HW2/ersoy_burak_1901042703.c:49-85 | spaces before a word count for nothing, however many |
| CommandLine.WordsAreWords | HW2/ersoy_burak_1901042703.c:49-85 | no word is empty or contains a space |
| CommandLine.FirstWord | HW2/ersoy_burak_1901042703.c:49-85 | a word before a space is the first, and the rest of the line gives the others |
| CommandLine.LoneWord | HW2/ersoy_burak_1901042703.c:49-85 | a word alone is the only one |
| CommandLine.QuitsIsComparison | HW2/ersoy_burak_1901042703.c:90-91 | the buffer compares equal to `:q` after the loop if and only if the line begins with that word |
| CommandLine.QuitsIsFirstWord | HW2/ersoy_burak_1901042703.c:49-91 | that is: no space comes first and the first word is `:q` |
| CommandLine.Shell.RunLine | HW2/ersoy_burak_1901042703.c:48-116 | the loop with its array and variables opens and executes what the word-by-word specification says and leaves no word or redirection for the next line |
| CommandLine.OutOperator | HW2/ersoy_burak_1901042703.c:54-61 | `>` opens the next word for output and keeps words and input |
| CommandLine.InOperator | HW2/ersoy_burak_1901042703.c:62-69 | `<` opens the next word for input and keeps words and output |
| CommandLine.BarOperator | HW2/ersoy_burak_1901042703.c:70-80 | a bar executes the pending words and resets words, input and output |
| CommandLine.OtherWord | HW2/ersoy_burak_1901042703.c:81-87 | any other word is added behind the pending ones |
| CommandLine.FitsExactly | HW2/ersoy_burak_1901042703.c:81-87 | the array of 20 suffices if and only if each command has at most 19 words besides its redirections |
| CommandLine.LoopMeansPipeline | HW2/ersoy_burak_1901042703.c:51-116 | on the words of any pipeline each command is fired once, with its own words and last redirections, none leaking to the next |
| CommandLine.LastOutCounts | HW2/ersoy_burak_1901042703.c:54-61 | the last output redirection of a command is the one that counts |
| CommandLine.LastInCounts | HW2/ersoy_burak_1901042703.c:62-69 | the last input redirection of a command is the one that counts |
| CommandLine.NoRedirection | HW2/ersoy_burak_1901042703.c:70-80 | a command without redirection of a kind uses the standard descriptor |
| CommandLine.ParseSound | HW2/ersoy_burak_1901042703.c:51-89 | every word list is the words of its parsed pipeline |
| CommandLine.ParseComplete | HW2/ersoy_burak_1901042703.c:51-89 | parsing a pipeline's words gives that pipeline |
| CommandLine.SpacedRoundTrip | HW2/ersoy_burak_1901042703.c:49-86 | splitting at spaces undoes joining with spaces |
| CommandLine.LineMeansPipeline | HW2/ersoy_burak_1901042703.c:49-116 | every line does what its one pipeline means, without the last command if and only if it begins with the word `:q` |
| CommandLine.SpacedQuits | HW2/ersoy_burak_1901042703.c:49-91 | a printed line quits if and only if its first word is `:q` |
| CommandLine.PrintedPipelineRuns | HW2/ersoy_burak_1901042703.c:49-116 | printing any pipeline and running the loop on the bytes gives that pipeline back, without its last command if and only if its first word is `:q` |

## Left out

- HW 5: the path where `opendir` fails, the SIGINT handler (it sets another global that nothing reads), timing output, argument parsing.
- HW 5: the join order of `main`; a run is finished when all threads have exited.
- HW4: `help`, `list`, `upload`, `download`, sockets, splitting a request into its parts, and the response to `writeT` (it tests a buffer that was never initialised); `readF` and `upload` beside a running `writeT`, which do not take the mutex.
- HW1: failing writes and the overflow of `i` beyond the range of `int`.
- Midterm: file contents and sizes, readers and writers waiting for each other (`read_file` never checks `writers`, and the counters are changed without a lock), FIFOs, and the semaphore, which is never created.
- Midterm: line 290, where `handle_client` ends with `unlink` on the request text itself, so that the request `upload x` also deletes a file named "upload x".
- Midterm: `enqueue` interrupting `dequeue` half-way, which the missing semaphore would allow.
- HW2: fork, exec and wait, log files and pid arrays; `execute_command` and `open` are logged events; reading a line from the terminal.
- `FINAL PROJECT/` and the two clients: sockets, pipes and prompts with no protocol property of their own.
