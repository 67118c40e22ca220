# Goble app state: a Dafny model

This project models the stateful cores of the Goble desktop app and proves what
they keep over every run. The model takes the app's own form: where the app
changes fields in place there is a class whose methods are proved to do what a
function says, and the properties are proved about that function over all
inputs, all runs or all interleavings.

| modules | what they model |
|---|---|
| `HookTap`, `OscTap`, `Blocks`, `BlockEffects`, `Emulator`, `Commands`, `ToolCalls` | the terminal feed: two taps that carry state between chunks, the block list the hooks delimit, the bytes given to the screen, the answers an agent is owed |
| `ScreenImages`, `Displays` | the images a screen places among those bytes, and the pane's whole display |
| `UpdateModel`, `UpdateThreads`, `UpdateSteps`, `UpdateAnswers` | the update checker: its view model, and the clock, button and install threads as interleaved steps over one mutex and two atomics |
| `PaneTree`, `PaneNodes`, `Workspace`, `WorkspaceProofs`, `VerbEffects`, `UiState` | pane trees, spaces, focus, fresh ids; the control verbs |
| `Descents`, `TabProofs`, `Maximized` | loops that close tabs from the far end inwards; runs of verbs and closes; the expanded pane |
| `ControlBridge` | the request/reply channel between socket handlers and the UI thread |
| `PromptQueue`, `PromptEffects`, `PromptDesk` | the queued prompt of each pane and the handlers that put, take, restore and drop it |
| `MediumNames`, `MediaKeys`, `MediaTree`, `MediaModel`, `MediaEffects`, `MediaState` | the environment tree, its keys, its names, its selection |
| `Grouping`, `Projects` | the project list as a join of projects, sessions and tasks |
| `LogFiles` | the size-capped log and its rotation |
| `Base`, `Streams` | shared types, and machines that read a stream one element at a time |

Outside answers (the network, the file system, the shell, whether a turn starts,
JSON and OSC decoding, the VT interpreter) are parameters or choices of a step;
every property holds for all of them.

## What turned out not to hold

Where the code does not do what its documentation or an obvious reading says,
the model follows the code, and a lemma says exactly when the property holds.

- **Chunks show in the revision.** The bytes given to blocks and screen, and every
  event queue, do not depend on the cutting; `Screen.revision` counts `feed` calls
  (`Emulator.RevisionCountsChunks`).
- **Chunks show in images.** A visit to the alternate screen inside one run keeps
  the placed images; the same visit cut by a chunk drops them. Two feeds end as one
  if and only if the cut is in no run, or does not fall on the other surface with
  something placed, or nothing placed before that run outlives the two feeds given
  as one (`ScreenImages.TwoFeedsIff`). Each cutting has a cutoff, the number the
  next image had when the last run it cuts in that way opened; it ends as one feed if and only if
  no image of the whole is older than that (`ScreenImages.CuttingAgreesIff`). Two
  cuttings agree in everything if and only if the screen is frozen, or they have as
  many chunks and no image of the whole lies between their cutoffs
  (`Displays.CuttingsAgreeIff`); as many chunks alone are not enough
  (`Displays.EqualCountsDiffer`).
- **An ESC hides the envelope behind it**, and a body of exactly `MAX_BODY` bytes is
  dropped though the decoder accepts it (`HookTap.PrefixRecognised`,
  `HookTap.EnvelopeLifted`).
- **A tool call can go unanswered.** An agent's command is answered when it finishes, or
  when a prompt shows that the shell went on without it: exactly once over every session
  (`ToolCalls.EveryCallAnsweredOnce`), but for a block whose place the shell's first
  bootstrap took while it ran (`ToolCalls.BootAbandons`).
- **The check button sticks.** `check_now` marks the phase `Checking`, then spawns a
  check that is refused by that mark. From every reachable state the phase is never
  left again if and only if the page allowed a check when the press took effect
  (`UpdateThreads.PressSticksIff`). In the same way an install whose
  thread cannot be spawned stays in `Downloading`
  (`UpdateThreads.DownloadEndsIffSpawned`).
- **A pane that gave up the focus can keep the whole space.** The rule is that it
  cannot, and every control verb and the expand control keep it
  (`Maximized.VerbKeepsFocus`, `Maximized.ToggleKeepsFocus`). Closing another tab than
  the one on screen moves the focus to the first leaf and leaves the expansion
  standing: the rule then breaks, and the expanded pane is drawn without the focus,
  if and only if a pane is expanded and the focus was not on that leaf already
  (`Maximized.CloseSpaceFocusIff`, `Maximized.CloseSpaceShowsIff`, for "close other
  tabs" `Maximized.CloseOthersFocusIff` and `Maximized.CloseOthersShowsIff`, witness
  `Maximized.OtherTabClosed`). Closing the tab of the expanded pane leaves a stale id,
  which is harmless: the tree is drawn (`Maximized.StaleDrawsNothing`).
- **A layout is not always read back as it was asked for**: rows of a space with one
  pane, and the plain tree, are answered as what the tree is
  (`WorkspaceProofs.LayoutReadsBackIff`).
- **"Close other tabs" with one tab** does not move the focus to its first leaf
  (`TabProofs.CloseOthersLeavesOne`).
- **A finished turn takes the queued prompt before it knows a conversation to start
  it on.** Events that name a conversation, as the daemon's do, never lose a prompt
  for want of one, over any run (`PromptQueue.NamedRunsLoseNothing`); one event that names
  none is enough for a run that does (`PromptQueue.UnnamedRunLoses`). A
  dashboard reply queued behind another pane's turn is shown as the active pane's
  own queued prompt (`PromptQueue.MirrorStaysTrue`).
- **A dashboard draft is erased when it cannot be sent.** A reply or a dispatch clears
  its draft even where no model can run. A reply that is not blank leaves neither a
  turn nor a slot if and only if its pane is idle and the turn cannot run or be issued
  (`PromptQueue.ReplyLostIff`); a dispatch whose conversation was made, if and only if the turn
  cannot (`PromptQueue.DispatchLostIff`).
- **A queued prompt can wait for no turn.** Every event keeps a turn behind each
  prompt that waits, but for a stop and an error event of the pane whose prompt waits
  (`PromptQueue.WaitingKeepsTurnIff`). A finish follows the error and takes the prompt
  (`PromptQueue.FailedIsFinished`); none follows a stop, and the next prompt typed is
  sent ahead of the one that waits (`PromptQueue.StoppedIsOvertaken`).
- **"pending" depends on the order of the tasks.** A project with a finished and a
  pending task is "scheduled" or "idle" depending on which is stored first
  (`Projects.OrderShowsIff`, `Projects.PendingByOrder`).
- **The log's length can be short.** A write that fails halfway leaves bytes the
  logger does not count (`LogFiles.LenIsTheSize`). When a needed rotation is renamed
  and not reopened, and only then, nothing rotates again before the next start and
  the previous file grows past every cap (`LogFiles.NamelessIff`,
  `LogFiles.NamelessForGood`).
- **A toggle of an unknown key is not ignored**, as its comment says: the key is kept
  until the next refresh. The open keys stay those of branches that are there if and only
  if the toggle closes one or its branch is there (`MediaEffects.ToggleResolvesIff`).
- **A colon in a medium's id breaks its project keys** (`MediaKeys.ProjectKeyRoundTrip`,
  `MediaKeys.ColonCollides`). The app itself never makes such an id
  (`MediaModel.KeysMeanProjects`).

## Model

| member | source | states |
|---|---|---|
| `HookTap.ScanAppend` | crates/goble-terminal/src/hooks.rs:185-243 | tapping a stream in two calls gives the state and the pieces of tapping it in one, for every cut |
| `HookTap.ScanConserves` | crates/goble-terminal/src/hooks.rs:173-243 | no byte is lost, repeated or reordered: held plus input equals what was passed, lifted and dropped plus what is held |
| `HookTap.PrefixRecognised` | crates/goble-terminal/src/hooks.rs:185-243 | an introducer opens an envelope exactly when the tap was in ground state |
| `HookTap.EnvelopeLifted` | crates/goble-terminal/src/hooks.rs:23-28 | a whole envelope is lifted, passing nothing, when its body is shorter than the bound and decodes; at exactly the bound it is dropped and its backslash passes |
| `HookTap.EscapeHidesEnvelope` | crates/goble-terminal/src/hooks.rs:185-243 | the stream ESC, introducer: nothing is recognised and every byte reaches the screen |
| `HookTap.TextPasses` | crates/goble-terminal/src/hooks.rs:185-243 | text without an ESC passes whole, from ground to ground, with no hook and no drop |
| `HookTap.BrokenIntroducer` | crates/goble-terminal/src/hooks.rs:185-243 | the start of an introducer and a byte that does not go on with it all pass |
| `HookTap.BrokenEnvelope` | crates/goble-terminal/src/hooks.rs:185-243 | an ESC inside a body and another byte than the backslash: the whole is dropped, and counted once |
| `HookTap.LongBodyDropped` | crates/goble-terminal/src/hooks.rs:185-243 | a body is dropped at its first byte over the bound |
| `HookTap.Tap.TapOrdered` | crates/goble-terminal/src/hooks.rs:185-243 | the loop in place is the scan: its buffer, its hooks with their offsets, its state, its drop count |
| `OscTap.Tap.Observe` | crates/goble-terminal/src/osc.rs:91-147 | every byte passes on unchanged, and the events and carried state are those of the byte machine, whose finds the rows below give |
| `OscTap.SequenceIsFound` | crates/goble-terminal/src/osc.rs:91-147 | from ground, for any number of ESCs before the bracket and either terminator: a plain body within the bound gives exactly the decoder's event and no drop; a longer one gives no event and counts once; the tap is in ground again |
| `OscTap.EscapeAbandons` | crates/goble-terminal/src/osc.rs:91-147 | ESCs inside a body and another byte than the backslash: dropped, counted once, no event |
| `OscTap.EscapedByte` | crates/goble-terminal/src/osc.rs:91-147 | an ESC before anything but the bracket promises nothing |
| `OscTap.TextIsQuiet` | crates/goble-terminal/src/osc.rs:91-147 | text without an ESC changes nothing and finds nothing |
| `Blocks.ScreenFeedAppend` | crates/goble-terminal/src/screen/surface.rs:98-102 | the bytes a screen holds when fed twice are those of feeding it once, frozen screens and drop counts included |
| `Blocks.FeedAppend` | crates/goble-terminal/src/blocks/list.rs:156-161 | feeding the block list is homomorphic in the bytes, whichever screen of the active block they go to |
| `BlockEffects.ScreenHolds` | crates/goble-terminal/src/screen/surface.rs:98-102 | a screen holds what it was fed, in order; a frozen one stays as it is and counts the bytes |
| `BlockEffects.FrozenAndReset` | crates/goble-terminal/src/screen/surface.rs:186-192 | nothing joins a frozen screen; a reset one starts blank and takes bytes again |
| `BlockEffects.BytesLand` | crates/goble-terminal/src/blocks/block.rs:224-243 | bytes reach the active block only: its command line before execution, its output from then on, its drop count after the end |
| `BlockEffects.StartDoes` | crates/goble-terminal/src/blocks/list.rs:235-248 | a preexec names and starts the block, gives it the claim's owner when the claim was made on it, spends the claim, and shows an agent's block in its conversation |
| `BlockEffects.FinishDoes` | crates/goble-terminal/src/blocks/list.rs:250-270 | a finish freezes both screens, keeps the code, tells an empty block from one that ran, opens the next block, reports the end and answers the block's agent |
| `BlockEffects.PromptDoes` | crates/goble-terminal/src/blocks/list.rs:208-233 | a prompt while nothing runs informs the active block and moves the session's directory |
| `BlockEffects.PromptPromotes` | crates/goble-terminal/src/blocks/list.rs:208-233 | a prompt while a command runs leaves it in the background, answered as still running, and informs a new block |
| `BlockEffects.ClearDoes` | crates/goble-terminal/src/blocks/list.rs:291-307 | a clear drops the blocks before the active one, renumbers the rest, blanks its output and leaves one gap for it |
| `BlockEffects.ShellDoes` | crates/goble-terminal/src/blocks/list.rs:183-206 | an init sets the session, keeping what it does not say; the first bootstrap opens a block, a later one does nothing |
| `BlockEffects.InputDoes` | crates/goble-terminal/src/blocks/list.rs:164-181 | the line being edited is kept and reported |
| `Emulator.SegmentIsBytes` | app/src/emulator.rs:145-174 | feeding a segment to the OSC tap and the blocks is feeding it byte by byte |
| `Emulator.WeaveIsMerge` | app/src/emulator.rs:145-174 | the cursor loop over hook offsets performs exactly the merge of bytes and hooks in stream order, up to the cursor |
| `Emulator.ChunkIsMerge` | app/src/emulator.rs:145-174 | with the tail, one feed performs the whole merge: hooks at equal offsets and at the end included |
| `Emulator.ScreenSeesWhatBlocksSee` | app/src/emulator.rs:136-175 | the segments given to the blocks concatenate to the bytes given to the screen |
| `Emulator.FeedCut` | app/src/emulator.rs:136-175 | cutting one chunk in two changes nothing in taps, blocks, queues and the bytes given to the screen; the revision grows by one |
| `Emulator.ChunkIndependence` | app/src/emulator.rs:136-189 | for every stream and every cutting: taps, blocks, the bytes given to the screen and all three event queues are those of one feed of the whole; the revision counts the chunks |
| `Emulator.RevisionCountsChunks` | crates/goble-terminal/src/screen/surface.rs:116 | two cuttings of one stream agree in those and in the revision if and only if they have as many chunks, or the screen is frozen |
| `Emulator.QueuesAreFound` | app/src/emulator.rs:136-175 | for every cutting: the OSC events queued are those the OSC tap finds in the bytes that passed, the hooks queued are the envelopes lifted, in order |
| `Emulator.SequenceIsQueued` | app/src/emulator.rs:145-174 | for every cutting of a stream in which a whole OSC sequence passes the hook tap: its event is queued, between those found before and behind it |
| `Emulator.Emulator.Feed` | app/src/emulator.rs:136-175 | the method in place does what the merge says, for any chunk |
| `Emulator.Emulator.FeedInOrder` | app/src/emulator.rs:145-174 | the loop over hooks feeds and applies in stream order, and gives the screen the staged bytes unchanged |
| `Emulator.Emulator.ApplyHook` | app/src/emulator.rs:156-189 | a hook changes the blocks, is queued, and each block it starts is shown in the conversation that owns it |
| `Commands.RunApart` | crates/goble-terminal/src/blocks/list.rs:309-319 | over every stream no two blocks share an id |
| `Commands.SessionApart` | crates/goble-terminal/src/blocks/list.rs:309-319 | so too from a new pane, however its stream is cut |
| `Commands.StartedCommand` | app/src/emulator.rs:156-189 | a started command's block gets the claim's owner and, when that is an agent, is shown in that agent's conversation and in no other besides; a user's block and all other blocks stay as they were |
| `Commands.CommandOwnsItsBytes` | crates/goble-terminal/src/blocks/list.rs:235-268 | between its preexec and its finish, a command's block receives exactly the bytes in between, frozen with its text and exit code; other blocks are untouched |
| `Commands.OutputLandsInItsBlock` | app/src/emulator.rs:140-175 | the same however the stream is cut into chunks |
| `ToolCalls.EveryCallAnsweredOnce` | crates/goble-terminal/src/blocks/list.rs:208-289 | over every session of streams and claims from a new pane: an agent's block is answered exactly once when it is not the active one any more and never before, unless the shell's first bootstrap took its place |
| `ToolCalls.SessionAnswers` | crates/goble-terminal/src/blocks/list.rs:208-289 | over every session, and for every block ever: answered once more if and only if it was an agent's, was left, and not by a bootstrap |
| `ToolCalls.BootAbandons` | crates/goble-terminal/src/blocks/list.rs:199-206 | a session in which the bootstrap comes while a claimed command runs, and its call is never answered |
| `ToolCalls.ClaimIsHonoured` | crates/goble-terminal/src/blocks/list.rs:135-142 | a claim is taken exactly on the active block while it waits for a command, and the command that then starts there is the agent's, whatever is typed before |
| `ScreenImages.CutInsideRun` | crates/goble-terminal/src/screen/surface.rs:123-129 | a cut inside one run changes the surface if and only if something is placed, the cut falls on the other surface and the run does not end there; it then loses every placement |
| `ScreenImages.CutInFeed` | crates/goble-terminal/src/screen/surface.rs:98-129 | with a whole feed around the run: the surfaces differ in the end if and only if that cut shows and, uncut, a placement older than the run is still there |
| `ScreenImages.ChunksOfTwo` | crates/goble-terminal/src/image.rs:415-421 | the runs and images of one call are those of two, but that a run open at the cut is one run |
| `ScreenImages.TwoFeedsIff` | crates/goble-terminal/src/screen/surface.rs:98-129 | over any image tap and any cache bounds, two feeds end as one if and only if the cut is not harmful |
| `ScreenImages.CuttingLoses` | crates/goble-terminal/src/screen/surface.rs:98-129 | over every cutting: the images are those of one feed without the ones older than the cutoff, and all else on the surface is equal |
| `ScreenImages.CuttingAgreesIff` | crates/goble-terminal/src/screen/surface.rs:98-129 | a cutting ends as one feed if and only if no image of the whole is older than its cutoff |
| `ScreenImages.TwoCuttingsIff` | crates/goble-terminal/src/screen/surface.rs:98-129 | two cuttings of one stream end alike if and only if no image of the whole lies between their cutoffs |
| `ScreenImages.QuietCutsAgree` | crates/goble-terminal/src/screen/surface.rs:98-129 | what can be checked cut by cut and suffices: no cut falls on the other surface with something placed |
| `ScreenImages.FitSplits` | crates/goble-terminal/src/image.rs:255-273 | the cache makes room by dropping the oldest, so what is newer is kept as if alone |
| `ScreenImages.FitKeepsMost` | crates/goble-terminal/src/image.rs:255-273 | what is left is within both bounds, and one older image more would not be |
| `ScreenImages.PlacementDoes` | crates/goble-terminal/src/image.rs:210-253 | an image takes the place of its older copies as the newest, at the cursor, the oldest making room; one that cannot be drawn or is over the bound alone changes nothing; deletions take one id or all |
| `ScreenImages.RemoveIs` | crates/goble-terminal/src/image.rs:242-253 | a removal takes the placements of its id and keeps the others in order |
| `ScreenImages.RunDoes` | crates/goble-terminal/src/screen/surface.rs:123-129 | a run is parsed, and takes every placement when it ends on the other surface |
| `ScreenImages.VisitKeepsOrDropsImages` | crates/goble-terminal/src/screen/surface.rs:123-129 | an image followed by a visit to the other surface: kept in one run, gone in two |
| `Displays.GivenIsTheStream` | app/src/emulator.rs:136-175 | whatever the cutting of the pty stream, the same bytes reach the screen |
| `Displays.QuietIndependence` | app/src/emulator.rs:136-175 | cut quietly, a stream leaves pane and images as fed once, but for the revision |
| `Displays.ImagesAgreeIff` | app/src/emulator.rs:136-175 | a cut pty stream shows the images of the stream fed once if and only if the screen is frozen or none of them is older than the cutoff |
| `Displays.CuttingsAgreeIff` | app/src/emulator.rs:136-175 | two cuttings agree in pane, images and revision if and only if the screen is frozen, or they have as many chunks and no image of the whole lies between their cutoffs |
| `Displays.EqualCountsDiffer` | crates/goble-terminal/src/screen/surface.rs:123-129 | two cuttings into two, one of them quiet, have the same images if and only if the other's cut is not harmful |
| `UpdateModel.CheckDue` | app/src/update.rs:376-384 | a check is due when none was made, or the whole interval has passed since the last |
| `UpdateModel.LastSegmentIs` | app/src/update.rs:113-132 | the file name shown is the url's longest slash-free suffix |
| `UpdateModel.TransitionsStayTruthful` | app/src/update.rs:270-368 | every transition keeps the page's fields consistent with its phase, and a refused one changes nothing |
| `UpdateSteps.PageDoes` | app/src/update.rs:270-368 | each transition of the page: when it is allowed, each field after it, and nothing when refused |
| `UpdateSteps.AnswerDoes` | app/src/update.rs:281-322 | an answer is taken only while checking; the page after an offer, after none, after a failure, and its time |
| `UpdateModel.UpdateViewModel.DoCheckFinished` | app/src/update.rs:281-322 | the in-place answer of a check, refused unless checking |
| `UpdateThreads.BehaviourKeepsInv` | app/src/update.rs:520-735 | the inductive invariant of the service holds in every interleaving of clock, button and install threads |
| `UpdateThreads.InstallsWhatThePageShows` | app/src/update.rs:571-662 | in every interleaving: available means the offer is there and is the one summarised; a downloading thread carries that release; the branch without an offer is never reached |
| `UpdateThreads.OneAtATime` | app/src/update.rs:557-662 | in every interleaving: one check at most, one install at most, never a check beside a download; `installing` is set exactly while an attempt owes its reset |
| `UpdateThreads.OthersCannotAnswer` | app/src/update.rs:270-322 | while the clock thread checks, no step of another thread leaves `Checking` |
| `UpdateThreads.OwnStepAnswers` | app/src/update.rs:571-614 | each of its own steps brings the answer closer, and the last leaves the phase, whatever the client said |
| `UpdateAnswers.AnswerIsShown` | app/src/update.rs:571-614 | from the clock thread's question to the end of its check, whatever other threads do in between: a signed (or allowed) release is offered, stored and shown field by field; another is refused with the offer as it was; nothing newer is idle and up to date; a failure shows its reason; each with its time |
| `UpdateAnswers.InstallIsShown` | app/src/update.rs:664-735 | from a download to its thread's report, whatever other threads do in between: installed under its version, exited exactly for a restart, or failed with its reason, the rest of the page as it was |
| `UpdateAnswers.OnlyTrusted` | app/src/update.rs:586-599 | in every interleaving: what is offered or downloaded is signed, unless unsigned releases are allowed |
| `UpdateAnswers.VerifiedGoesOn` | app/src/update.rs:664-671 | in every interleaving the install thread's own check of the signature refuses nothing: it goes on to the download |
| `UpdateSteps.CheckStepDoes` | app/src/update.rs:520-577 | the clock's steps: due or not, not beside an install, not over a check; what each marks |
| `UpdateSteps.ButtonStepDoes` | app/src/update.rs:547-569 | the button marks first, then spawns the check |
| `UpdateSteps.InstallStepDoes` | app/src/update.rs:632-662 | an install begins once at a time over an available release and hands its thread the stored offer; the atomic is taken back where no thread starts |
| `UpdateSteps.DownloadStepDoes` | app/src/update.rs:664-735 | the install thread's steps, its report and the reset of the atomic |
| `UpdateThreads.ClockAnswers` | app/src/update.rs:571-614 | from any reachable check of the clock thread a continuation ends it |
| `UpdateThreads.AnsweredIffClockMarked` | app/src/update.rs:547-577 | a check can be answered if and only if the button did not mark it |
| `UpdateThreads.PressSticksIff` | app/src/update.rs:547-577 | from every reachable state in which no press has marked, the phase stays `Checking` for good after the press if and only if the page allowed a check |
| `UpdateThreads.ButtonSticks` | app/src/update.rs:547-577 | a run from the start into the stuck state: one press |
| `UpdateThreads.SpawnedCheckIsRefused` | app/src/update.rs:547-577 | the check a button spawns is always refused and changes nothing |
| `UpdateThreads.StuckForGood` | app/src/update.rs:270-368 | a phase left without its thread is kept by every continuation |
| `UpdateThreads.DownloadEndsIffSpawned` | app/src/update.rs:632-662 | a download can end if and only if its thread was started |
| `UpdateThreads.DownloadEnds` | app/src/update.rs:664-735 | a download that has its thread has a continuation that ends it |
| `UpdateThreads.ChecksAreSpaced` | app/src/update.rs:520-614 | under a clock that does not go back, checks of the clock thread start at least the interval after the previous answer, and after the adopted last check |
| `PaneTree.LookupsAgree` | app/src/ui/pane.rs:344-392 | membership, kind lookup, leaf list, leaf count and first leaf agree on what the tree's leaves are |
| `PaneTree.LeavesDistinct` | app/src/ui/pane.rs:382-392 | a well-formed tree lists each leaf once |
| `PaneTree.SplitLeafSucceeds` | app/src/ui/pane.rs:565-595 | a split succeeds exactly on a leaf of the tree |
| `PaneTree.SplitLeafEffect` | app/src/ui/pane.rs:565-595 | it adds the two fresh ids, the new leaf of the asked kind, and nothing else |
| `PaneTree.SplitLeafOrder` | app/src/ui/pane.rs:565-595 | the new leaf stands right after its target, all others stay in order |
| `PaneTree.RemoveLeafEffect` | app/src/ui/pane.rs:689-713 | removal is refused exactly for a lone or missing leaf; otherwise the sibling takes the split's place and the next focus is a leaf that stays |
| `PaneTree.CloseUndoesSplit` | app/src/ui/pane.rs:565-713 | closing the pane a split opened gives back the same tree and its target as focus |
| `PaneTree.SetDirsKeeps` | app/src/ui/pane.rs:597-612 | turning all splits keeps ids, leaves, order and kinds, and is idempotent |
| `PaneTree.LayoutShowsTheTree` | app/src/control/mod.rs:625-648 | two trees answer the same layout exactly when they agree in ids, splits, ratios and kind names: only what a kind carries beside its name is lost |
| `PaneNodes.NodesDetermine` | app/src/ui/pane.rs:344-392 | root and nodes determine a tree, so what is said of an edit at every id says all of it |
| `PaneNodes.SplitLeafNodes` | app/src/ui/pane.rs:565-595 | at every id: the new split has the asked direction, ratio one half, the target before the new leaf of the asked kind, and hangs where the target hung; every other node keeps direction, ratio, kind and children |
| `PaneNodes.RemoveLeafNodes` | app/src/ui/pane.rs:689-713 | at every id: the leaf and the split it hung in are gone, what hung beside it hangs in the split's place, its first leaf is the next focus; every other node is as it was |
| `PaneNodes.SetDirsNodes` | app/src/ui/pane.rs:597-612 | at every id: splits are turned, their ratios and children kept, leaves untouched |
| `WorkspaceProofs.SplitKeeps` | app/src/control/mod.rs:289-365 | a split fails exactly for a missing pane, changing nothing; else it spends two ids, focuses the new pane and keeps the invariant |
| `WorkspaceProofs.SplitTouchesOneSpace` | app/src/control/mod.rs:289-365 | every other space, session and runtime stays; the new pane starts in the asked directory or its target's |
| `WorkspaceProofs.CloseUndoesSplitVerb` | app/src/control/mod.rs:289-391 | split, then close of the new pane: every space, every session and the focus are back |
| `WorkspaceProofs.CloseKeeps` | app/src/control/mod.rs:367-391 | a close is refused, changing nothing, for a missing or lone pane; else the pane, all it owned and the inbox items about it are gone, and every other space, session, runtime and item stays |
| `WorkspaceProofs.FocusKeeps` | app/src/control/mod.rs:141-157 | focus fails only for a missing pane, and the answer shows it focused |
| `WorkspaceProofs.SwitchKeeps` | app/src/control/mod.rs:477-490 | a switch fails only for a missing space; else the focus is that space's first leaf |
| `WorkspaceProofs.SetLayoutKeeps` | app/src/control/mod.rs:650-725 | a layout fails only for a missing space and touches no other; every layout but single changes nothing else than that space, and keeps its leaves in order |
| `WorkspaceProofs.LayoutReadsBackIff` | app/src/control/mod.rs:598-725 | the answer names the layout asked for if and only if it is single, rows of a split space, or a mode other than the plain tree |
| `WorkspaceProofs.SingleKeeps` | app/src/control/mod.rs:650-725 | single keeps one pane and forgets the others of that space, with their runtimes and inbox items, and nothing of another space |
| `WorkspaceProofs.AckMarksOne` | app/src/control/mod.rs:545-574 | an acknowledgement marks the first item of its id and counts it if it was unread |
| `WorkspaceProofs.AckAllReadsAll` | app/src/state/ui_state/inbox.rs:156-165 | after acknowledging all, nothing is unread |
| `WorkspaceProofs.VerbKeepsWf` | app/src/control/mod.rs:125-200 | every verb keeps the workspace invariant |
| `WorkspaceProofs.ErrorsAreRefusals` | app/src/control/mod.rs:125-200 | a verb answers an error if and only if it is refused at the door: no lookup after a mutation can fail |
| `WorkspaceProofs.ErrorsChangeNothing` | app/src/control/mod.rs:125-200 | all or nothing: a verb answering an error leaves the whole workspace as it was |
| `WorkspaceProofs.PaneListIsTheWorkspace` | app/src/control/mod.rs:203-236 | the pane list is every leaf of every space once, in order, described truly, with exactly one marked focused |
| `VerbEffects.PanesSplitOpens` | app/src/control/mod.rs:289-365 | the whole workspace after a split: direction as asked, halved, the new pane behind its target, a chat beside a chat and else a terminal, its session and directory, the answer; nothing else |
| `VerbEffects.PanesNewOpens` | app/src/control/mod.rs:132-145 | the whole workspace after a new pane: beside the focused pane of the space on screen or another space's first, to the right, a terminal unless a chat is asked for |
| `VerbEffects.PanesCloseDoes` | app/src/control/mod.rs:367-391 | the whole workspace after a close: the tree at every id, the focus on what hung beside, the expansion, what was owned |
| `VerbEffects.PanesFocusDoes` | app/src/control/mod.rs:147-157 | only the focus moves, an expansion of another pane is taken back, the answer describes the pane |
| `VerbEffects.SpacesSwitchDoes` | app/src/control/mod.rs:477-490 | only the focus moves, to the space's first pane; the answer describes the space |
| `VerbEffects.SpacesListShows` | app/src/control/mod.rs:168-172 | every space once, in order: its panes counted, its layout, its environment, which is on screen |
| `VerbEffects.PanesListShows` | app/src/control/mod.rs:203-236 | every pane once, in order, with its kind, its directory and its focus |
| `VerbEffects.AgentsStateShows` | app/src/control/mod.rs:492-520 | one pane's agent, or every pane's in order |
| `VerbEffects.LayoutGetShows` | app/src/control/mod.rs:576-596 | the layout's name, the pane it acts on, and the tree at every id |
| `VerbEffects.LayoutSetDoes` | app/src/control/mod.rs:650-725 | rows turn every split and make the tree plain, a mode changes only the mode; the answer shows it |
| `VerbEffects.LayoutSingleDoes` | app/src/control/mod.rs:650-725 | the whole workspace after a single layout: one pane kept with its kind, focused; what the others owned is gone |
| `VerbEffects.AckAllDoes` | app/src/control/mod.rs:545-574 | every item is acknowledged, nothing else of it changed, and the count is of those unread |
| `VerbEffects.AckOneDoes` | app/src/control/mod.rs:545-574 | the first item of the id is acknowledged, and counted if it was unread |
| `VerbEffects.AgentsPromptDoes` | app/src/control/mod.rs:173-187 | the conversation recorded, the turn state and the answer, exactly |
| `VerbEffects.ShellVerbsAnswer` | app/src/control/mod.rs:393-475 | a send counts its bytes, a resize answers done, and neither changes the workspace |
| `VerbEffects.RefusalsExplain` | app/src/control/mod.rs:125-200 | which error each refused verb answers |
| `TabProofs.CloseSpaceKeeps` | app/src/actions/pane_ops.rs:302-351 | closing a tab keeps the invariant and the space on screen, forgets its panes with their inbox items and nothing else, and resets the last tab to one fresh chat |
| `VerbEffects.CloseTabDoes` | app/src/actions/pane_ops.rs:302-351 | the whole workspace after a tab is closed: which tab is on screen, the focus on its first pane, what was owned |
| `VerbEffects.CloseLastTabDoes` | app/src/actions/pane_ops.rs:320-340 | the whole workspace after the last tab is closed: one fresh chat in a conversation of its own |
| `VerbEffects.NoTabNoChange` | app/src/actions/pane_ops.rs:302-305 | a tab that is not there cannot be closed, and one tab has no others |
| `TabProofs.CloseDownEffect` | app/src/actions/make_actions.rs:2062-2068 | a descending loop of closes removes exactly its stretch although indices shift, and what its panes owned |
| `Descents.DescendRemoves` | app/src/actions/make_actions.rs:2063-2068 | any descending loop of removals leaves what is before and after its stretch, in order |
| `TabProofs.CloseOthersLeavesOne` | app/src/actions/make_actions.rs:2062-2074 | from any tabs and any tab on screen: exactly the menu's tab is left, untouched, on screen; sessions, runtimes and inbox items of all other panes are gone and no others; and the focus is its first leaf if and only if another tab was closed or it was there already |
| `TabProofs.RunsKeepWf` | app/src/control/mod.rs:125-200 | the invariant over every run of verbs and tab closes |
| `TabProofs.StartIsWf` | app/src/actions/pane_ops.rs:320-340 | the one-pane workspace is well-formed |
| `Maximized.StaleDrawsNothing` | app/src/ui/panes.rs:55-66 | a pane is drawn over the tree if and only if the expanded id is a leaf of the space on screen |
| `Maximized.ToggleKeepsFocus` | app/src/actions/make_actions.rs:2428-2449 | the expand control keeps an expanded pane the focused one |
| `Maximized.ToggleDoes` | app/src/actions/make_actions.rs:2428-2449 | the control expands, takes back and focuses; it is refused only for a pane not expanded in a space of one |
| `Maximized.VerbKeepsFocus` | app/src/control/mod.rs:125-200 | every verb keeps it: a pane that gave up the focus is not expanded |
| `Maximized.CloseSpaceFocusIff` | app/src/actions/pane_ops.rs:302-351 | closing a tab keeps it if and only if nothing is expanded, or the tab is another than the one on screen and the focus is on its first leaf already |
| `Maximized.CloseSpaceShowsIff` | app/src/actions/pane_ops.rs:302-351 | the breach is drawn exactly when a pane is expanded, another tab than the one on screen is closed and the focus was not on the first leaf |
| `Maximized.CloseOthersFocusIff` | app/src/actions/make_actions.rs:2062-2074 | "close other tabs" keeps it if and only if nothing is expanded, no other tab is there, or the focus is the kept tab's first leaf |
| `Maximized.CloseOthersShowsIff` | app/src/actions/make_actions.rs:2062-2074 | there the breach is drawn exactly when also the kept tab was on screen |
| `Maximized.OtherTabClosed` | app/src/state/ui_state/session.rs:10-22 | a workspace from which either leaves pane 1 focused and pane 2 drawn over it |
| `Maximized.VerbKeepsMaximized` | app/src/control/mod.rs:125-200 | every verb keeps the expanded pane a pane that exists |
| `Maximized.CloseSpaceMaximizedIff` | app/src/actions/pane_ops.rs:302-351 | closing a tab keeps it so if and only if the expanded pane is not in that tab |
| `Maximized.CloseOthersMaximizedIff` | app/src/actions/make_actions.rs:2062-2074 | "close other tabs" keeps it so if and only if it is in the tab that stays |
| `Maximized.ClosedWhileExpanded` | app/src/actions/pane_ops.rs:302-351 | a workspace with two tabs from which either leaves the id of a pane that is gone, and the tree is drawn |
| `UiState.UiState.HandleUiCommand` | app/src/control/mod.rs:125-200 | the in-place interpreter does, for each verb, what the workspace functions say |
| `UiState.UiState.Split` | app/src/control/mod.rs:289-365 | the split verb in place: new state and answer |
| `UiState.UiState.Close` | app/src/control/mod.rs:367-391 | the close verb in place: new state and answer |
| `UiState.UiState.LayoutVerb` | app/src/control/mod.rs:650-725 | the layout verb in place: new state and answer |
| `UiState.UiState.AllPaneInfos` | app/src/control/mod.rs:203-215 | the loops over spaces and leaves build the pane list |
| `UiState.UiState.CloseTab` | app/src/actions/pane_ops.rs:302-351 | closing a tab in place: new state |
| `UiState.UiState.CloseOtherTabs` | app/src/actions/make_actions.rs:2062-2074 | the two descending loops in place: new state |
| `ControlBridge.NextKeepsInv` | app/src/control/mod.rs:55-107 | the bridge's invariant is kept by every send, take, execution, reply, timeout and close of the window |
| `ControlBridge.BridgeIsSequential` | app/src/control/mod.rs:55-107 | linearizability, for any interpreter of verbs and so the app's: for any handlers and interleaving, verbs run once each in channel order and every handler gets the answer that sequential history gives its own verb |
| `ControlBridge.GivenUpStillRunOnce` | app/src/control/mod.rs:55-74 | a verb whose handler timed out still runs, exactly once; one told the window had closed never runs |
| `ControlBridge.AnswerComes` | app/src/control/mod.rs:55-74 | from every reachable state with the window open, a waiting handler has a continuation in which it is answered as the sequential history answers its verb |
| `ControlBridge.WaitingCanEnd` | app/src/control/mod.rs:55-74 | a waiting handler can always be settled: by its answer alone once it is there, else by giving up, and by the closed channel exactly when the window is closed |
| `ControlBridge.SettledStays` | app/src/control/mod.rs:55-74 | over every run, what a call has come to is never taken back |
| `ControlBridge.CallsDo` | app/src/control/mod.rs:55-74 | which steps add a call and which settle one, and as what |
| `ControlBridge.LoopDoes` | app/src/root_view/control.rs:15-32 | the loop's steps: the oldest verb is taken, run, and its answer put into its own caller's slot |
| `ControlBridge.DrainIsReplay` | app/src/root_view/control.rs:15-32 | draining a queue is replaying it: the same workspace and the answers of the sequential history |
| `ControlBridge.DrainAnswers` | app/src/root_view/control.rs:15-32 | a drain puts into the reply slots exactly the answers of running the queue in order |
| `ControlBridge.RepliesAreOwn` | app/src/control/mod.rs:96-107 | with calls that differ each gets its own answer, and the slots are the old ones and those of the calls that waited, no others |
| `ControlBridge.RootView.ProcessControlRequests` | app/src/root_view/control.rs:15-32 | the drain loop in place empties the channel and leaves the workspace and slots of that drain |
| `PromptQueue.RunsConserve` | app/src/actions/make_actions.rs:42-133 | over every run and every pane, each accepted prompt either waits in its own pane's slot or was settled exactly once, with its own text |
| `PromptQueue.NextKeeps` | app/src/actions/make_actions.rs:942-1008 | every handler keeps that conservation |
| `PromptQueue.OpenedIsConserved` | app/src/state/ui_state/refresh.rs:20-60 | a window opens conserved, its copy true |
| `PromptQueue.SettledOnce` | app/src/actions/make_actions.rs:42-133 | every settled prompt is settled once and waits no more: started at most once, never started and dropped |
| `PromptQueue.EmptySubmit` | app/src/actions/make_actions.rs:57-98 | an empty submit without store, conversation or prompt changes nothing; over a suspended turn it puts the same prompt back, once |
| `PromptQueue.SendNow` | app/src/actions/make_actions.rs:42-133 | "send now" and an empty Enter: the waiting prompt is started on the pane's conversation, or dropped when its turn is not issued; over a proposal it waits on in a resumed turn, or is dropped; no other pane is touched |
| `PromptEffects.EnterDoes` | app/src/actions/make_actions.rs:942-1008 | a command line is no prompt; a prompt waits behind a running turn, dropping the one that waited, else is sent |
| `PromptEffects.SendDoes` | app/src/actions/prompt.rs:21-140 | a sent prompt is taken and settled at once; its pane is bound to the conversation and busy exactly when the turn starts |
| `PromptEffects.ControlPromptDoes` | app/src/control/mod.rs:175-187 | a prompt from the socket goes to its pane whatever runs there |
| `PromptEffects.OwnPromptDoes` | app/src/actions/make_actions.rs:1015-1043 | Cmd+Enter sends on the pane's own conversation, a new one when it has none, never on the sidebar's |
| `PromptEffects.ReplyDoes` | app/src/actions/make_actions.rs:1532-1571 | the whole window after a reply |
| `PromptEffects.DispatchDoes` | app/src/actions/make_actions.rs:1612-1648 | the whole window after a dispatch: a tab bound to the new conversation, and the prompt sent there |
| `PromptEffects.DismissDoes` | app/src/actions/make_actions.rs:1408-1415 | the active pane's slot is emptied, its turn runs on |
| `PromptEffects.ClearDoes` | app/src/actions/make_actions.rs:1215-1227 | slot and proposal are gone, the turn is not touched |
| `PromptEffects.StopDoes` | app/src/actions/make_actions.rs:1228-1240 | a stop ends the turn and its proposal, and leaves the slot |
| `PromptEffects.DecisionDoes` | app/src/state/ui_state/agents.rs:165-206 | a decision runs the suspended turn on and takes away the proposal it names, no other |
| `PromptEffects.AnswerDoes` | app/src/actions/make_actions.rs:1259-1294 | an answered question runs the suspended turn on, if it resumes |
| `PromptEffects.BindDoes` | app/src/state/ui_state/session.rs:187-226 | a bound pane is bound elsewhere; without a store its turn state is cleared |
| `PromptEffects.ForkDoes` | app/src/state/ui_state/session.rs:232-273 | a fork rebinds a bound pane, and the sidebar when it is the active one |
| `PromptEffects.CloseDoes` | app/src/state/ui_state/panes.rs:242-262 | a closed pane's prompt is dropped, and it owns nothing |
| `PromptQueue.FinishSubmits` | app/src/root_view/events.rs:30-124 | a finished turn always takes the waiting prompt; it starts, on the pane's conversation, if and only if there is one and the turn could be issued |
| `PromptEffects.FinishedDoes` | app/src/root_view/events.rs:30-124 | the whole window after a finish |
| `PromptEffects.FailedDoes` | app/src/root_view/events.rs:125-142 | an error ends the turn of the pane it names, and leaves its slot |
| `PromptEffects.ProposedDoes` | app/src/root_view/events.rs:167-206 | a proposal is held, or decided at once by the pane's mode |
| `PromptEffects.SpawnedDoes` | app/src/root_view/events.rs:143-254 | a question and a sub-agent give the pane a runtime; the sub-agent is noted as its |
| `PromptQueue.FinishNamed` | app/src/state/ui_state/agents.rs:45-51 | an event naming a conversation a pane is bound to submits that pane's prompt on that conversation, started if and only if the turn is issued |
| `PromptQueue.NamedRunsLoseNothing` | app/src/root_view/events.rs:30-124 | over every run whose events name their conversations no finish loses a prompt for want of a conversation, a sub-agent's included |
| `PromptQueue.UnnamedRunLoses` | app/src/state/ui_state/agents.rs:45-51 | a run with one event that names none, and the prompt it loses |
| `PromptQueue.MirrorStaysTrue` | app/src/actions/make_actions.rs:1532-1571 | the window's copy shows the active pane's slot after every event, except exactly a reply queued behind another pane's turn |
| `PromptQueue.ReplyFate` | app/src/actions/make_actions.rs:1532-1571 | a reply's draft is gone in every case; its prompt waits behind a busy pane, else is started or dropped at once, and which |
| `PromptQueue.ReplyLostIff` | app/src/actions/make_actions.rs:1532-1571 | a reply that is not blank leaves no turn and no slot if and only if its pane is idle and the turn cannot run or be issued |
| `PromptQueue.DispatchLostIff` | app/src/actions/make_actions.rs:1612-1648 | a dispatch never waits, and starts no turn if and only if the turn cannot run or be issued |
| `PromptQueue.WaitingKeepsTurnIff` | app/src/state/ui_state/agents.rs:182-191 | every event keeps a running turn behind each prompt that waits, except exactly a stop and an error event of a pane whose prompt waits |
| `PromptQueue.RunsKeepTurns` | app/src/root_view/events.rs:30-145 | over every run without those, each prompt that waits has its turn |
| `PromptQueue.StoppedIsOvertaken` | app/src/actions/make_actions.rs:1228-1240 | after a stop the prompt still waits, and the next prompt typed is settled ahead of it |
| `PromptQueue.FailedIsFinished` | app/src/root_view/events.rs:125-145 | after an error event the finish of the same conversation finds the same pane and takes the prompt |
| `PromptDesk.Desk.FlushQueuedPrompt` | app/src/actions/make_actions.rs:42-133 | the take, put-back and start in place: new state |
| `PromptDesk.Desk.OnSendMessage` | app/src/actions/make_actions.rs:942-1008 | the composer's Enter in place: new state |
| `PromptDesk.Desk.SendAgentPrompt` | app/src/actions/prompt.rs:21-140 | new state, and that a turn ran exactly when a model, a store and a conversation were there and it could be issued |
| `PromptDesk.Desk.OnReply` | app/src/actions/make_actions.rs:1532-1571 | the dashboard reply in place: new state, the draft erased whatever came of it |
| `PromptDesk.Desk.OnDispatch` | app/src/actions/make_actions.rs:1612-1648 | the dashboard dispatch in place: new state, a tab of its own, the draft erased whatever came of it |
| `PromptDesk.Desk.OnStop` | app/src/actions/make_actions.rs:1228-1240 | the stop in place: new state, the slot as it was |
| `PromptDesk.Desk.OnCmdEnter` | app/src/actions/make_actions.rs:1015-1043 | Cmd+Enter in place: a pane that owns no conversation gets a new one, but only if the turn can run |
| `PromptDesk.Desk.OnDismissQueued` | app/src/actions/make_actions.rs:1408-1415 | the dismissal in place: new state |
| `PromptDesk.Desk.OnClearTranscript` | app/src/actions/make_actions.rs:1215-1227 | clearing in place: new state |
| `PromptDesk.Desk.OnTurnFinished` | app/src/root_view/events.rs:30-124 | the finish arm in place: new state |
| `PromptDesk.Desk.OnProposal` | app/src/root_view/events.rs:167-206 | the proposal arm in place, with the decision the pane's mode makes: new state |
| `PromptDesk.Desk.DrainEvents` | app/src/root_view/events.rs:9-258 | a frame's events about turns (finished, failed, asked, proposed, spawned) are handled in order, and none without a store |
| `PromptDesk.BatchIsARun` | app/src/root_view/events.rs:28-258 | a drained frame is a stretch of a run, so what holds of runs holds of it |
| `MediumNames.MediumIdFromLabel` | app/src/media/actions.rs:99-117 | the loop with its dash flag gives the label's alphanumeric words, in lower case, joined by single dashes, or the fallback |
| `MediumNames.MediumIdIsNormal` | app/src/media/actions.rs:96-117 | every id is non-empty, dash-normalized, made of dashes and lower-case alphanumerics, and has no colon |
| `MediumNames.MediumIdIdempotent` | app/src/media/actions.rs:99-117 | an id is its own id |
| `MediumNames.LowerIs` | app/src/media/actions.rs:99-117 | capitals become their small letters, one for one, and nothing else changes |
| `MediumNames.CandidatesDiffer` | app/src/media/actions.rs:71-77 | the names the search tries are pairwise different |
| `MediumNames.TriesAreBounded` | app/src/media/actions.rs:71-77 | no more tries can fail than there are mediums |
| `MediumNames.FreshId` | app/src/media/actions.rs:71-77 | the search ends for every list, on the first free name, after at most one try more than the list is long |
| `MediaKeys.SplitFinds` | app/src/media/state.rs:176-189 | splitting a key's rest gives back medium and project if and only if the medium has no colon, and always splits at the first |
| `MediaKeys.MediumKeyRoundTrip` | app/src/media/state.rs:69-71 | a medium's key exists exactly when the medium does |
| `MediaKeys.ProjectKeyRoundTrip` | app/src/media/state.rs:74-76 | a project's key exists exactly when the project does, in every tree, if and only if the medium has no colon |
| `MediaKeys.ProjectKeysDiffer` | app/src/media/state.rs:74-76 | for colon-free mediums and any projects, keys are injective |
| `MediaKeys.KeysAreDisjoint` | app/src/media/state.rs:69-76 | no medium's key is a project's |
| `MediaKeys.ColonCollides` | app/src/media/state.rs:74-76 | every medium with a colon shares each of its project keys with another medium |
| `MediaEffects.KeysAreOfBranches` | app/src/media/state.rs:176-189 | only the keys of branches that are there exist |
| `MediaTree.BuildFromBackend` | app/src/media/state.rs:94-147 | the grouping loops build the tree that the stored sessions are meant to give |
| `MediaTree.BranchesAreProjects` | app/src/media/state.rs:106-139 | a medium's projects: ids unique, none empty, exactly those of its sessions |
| `MediaTree.FirstSeenInOrder` | app/src/media/state.rs:106-139 | projects stand in the order of their first sessions |
| `MediaTree.EveryLeafOnce` | app/src/media/state.rs:106-139 | every session on a medium is a leaf of it exactly once, and nothing else is |
| `MediaTree.BuiltAt` | app/src/media/state.rs:94-147 | the tree holds a session under a medium and project exactly when it is stored under them, the empty project read as default |
| `MediaTree.BuiltShows` | app/src/media/state.rs:94-147 | two environments; each leaf is a stored session of that environment, under its project, with the directory the project is first stored with |
| `MediaTree.LocationIsThere` | app/src/media/state.rs:406-415 | a location found holds the session, and none found means no place does |
| `MediaTree.LocationIsTheSessions` | app/src/media/state.rs:406-415 | with distinct session ids a stored session is found under its own medium and project, whatever was added |
| `MediaModel.RefreshOk` | app/src/media/state.rs:248-272 | a refresh makes any selection well-formed, and exactly the expanded keys that still resolve stay |
| `MediaModel.RefreshIdempotent` | app/src/media/state.rs:248-272 | refreshing twice from one store is refreshing once |
| `MediaEffects.RefreshDoes` | app/src/media/state.rs:248-272 | the whole state after a refresh: the tree, the open branches, a gone environment giving way to the local one, a gone session to none |
| `MediaEffects.OpensLocal` | app/src/media/state.rs:232-244 | a window opens on the local environment, its branch open |
| `MediaEffects.ToggleDoes` | app/src/media/state.rs:308-316 | a toggle closes an open branch, and opens another behind the others |
| `MediaEffects.ToggleResolvesIff` | app/src/media/state.rs:306-316 | a toggle keeps the open keys those of branches that are there if and only if it closes one or its branch is there |
| `MediaEffects.SelectSessionDoes` | app/src/media/state.rs:325-342 | a session that is there is selected with its branch open, and another changes nothing |
| `MediaEffects.SelectMediumDoes` | app/src/media/state.rs:352-364 | an environment that is there is selected in its starting project, without a session |
| `MediaEffects.PickDoes` | app/src/media/actions.rs:48-63 | the remote environment is picked only once it has a worker |
| `MediaModel.CustomsOk` | app/src/media/state.rs:275-295 | appending the stored environments keeps ids unique and the built-ins in front, and every one is in the tree |
| `MediaModel.AddSelectsTheNew` | app/src/media/actions.rs:65-88 | adding by a label that is not blank always succeeds under an unused id and ends with the new environment selected and expanded |
| `MediaEffects.AddDoes` | app/src/media/actions.rs:65-92 | the whole state after the dialog: the trimmed title, one project with one session of its own, the persisted list, the selection |
| `MediaEffects.CustomsDo` | app/src/media/state.rs:275-295 | each node behind the built-in ones is that of a stored environment, with one project and one session of its own |
| `MediaModel.RunsKeepWf` | app/src/media/state.rs:232-390 | over every run: unique mediums, a selected medium that exists, a session that is empty or exists where it is selected, customs in the tree, no key expanded twice |
| `MediaModel.SelectableIffAt` | app/src/media/state.rs:297-304 | the first-match lookup finds a session exactly at the places the tree holds it |
| `MediaModel.LocationSelects` | app/src/media/state.rs:325-342 | a location found can be selected and is; a session without one cannot be selected anywhere |
| `MediaModel.AddThenRefresh` | app/src/media/actions.rs:78-88 | from every well-formed state: after a refresh an added environment is there, and selected, if and only if its write was accepted or the store holds that id anyway; else the selection falls back to local |
| `MediaModel.KeysMeanProjects` | app/src/media/state.rs:176-189 | over every run from colon-free stored ids, no medium gets a colon, so project keys mean their projects |
| `MediaState.MediaState.Refresh` | app/src/media/state.rs:248-254 | the refresh in place: new state |
| `MediaState.MediaState.AppendCustomMediums` | app/src/media/state.rs:275-295 | the append loop in place: new tree |
| `MediaState.MediaState.ReconcileSelection` | app/src/media/state.rs:258-272 | the selection's reset in place: new state |
| `MediaState.MediaState.SelectSessionAt` | app/src/media/state.rs:325-342 | new state, and true exactly when the session was there |
| `MediaState.MediaState.SelectMediumById` | app/src/media/state.rs:352-364 | new state, and true exactly when the medium was there |
| `MediaState.MediaState.AddCustom` | app/src/media/state.rs:370-390 | new state, and true exactly when the id was unused |
| `MediaState.MediaState.OnAddMedium` | app/src/media/actions.rs:65-92 | the dialog in place: new state and the list to persist |
| `Projects.GroupProjects` | app/src/projects/state.rs:88-152 | the loops over two maps build the join: one ascending entry for each project stored or with a session |
| `Projects.TaskStatuses` | app/src/projects/state.rs:101-112 | the update loop gives each session running if any task runs, else scheduled if any is, else its first task's status |
| `Projects.JoinIsUnique` | app/src/projects/state.rs:88-152 | exactly one list is the join |
| `Projects.EverySessionOnce` | app/src/projects/state.rs:114-137 | every stored session is listed exactly once, nothing else is, and no project twice |
| `Projects.SessionIsListed` | app/src/projects/state.rs:88-152 | a stored session is listed under its project or the default one, with its environment or the local one, its time, its status; the project with the directory first stored |
| `Projects.RunningIff` | app/src/projects/state.rs:155-166 | a project runs if and only if one of its sessions has a running task, in any order; failing that a scheduled task makes it scheduled |
| `Projects.OrderShowsIff` | app/src/projects/state.rs:101-112 | the status depends on the order of the tasks if and only if nothing runs or is scheduled, a task is pending, and each session with a pending task also has another |
| `Projects.PendingByOrder` | app/src/projects/state.rs:101-112 | the two orders of a finished and a pending task: idle or scheduled |
| `LogFiles.FilesHoldTheTail` | app/src/logging.rs:86-160 | over every run of starts and records, whatever fails, the two files are a contiguous tail of all records, cut only between records |
| `LogFiles.FilesAreASuffix` | app/src/logging.rs:86-160 | as bytes, previous plus current file is a suffix of everything ever on disk |
| `LogFiles.LenIsTheSize` | app/src/logging.rs:105-117 | the length kept never exceeds the size behind the handle, and equals it if and only if no write failed halfway since the last start or rotation |
| `LogFiles.CapHolds` | app/src/logging.rs:105-117 | over every run in which the rotations that are needed succeed and no write is cut, whatever else fails: the current file is within the cap or is one record |
| `LogFiles.CapStepIff` | app/src/logging.rs:105-117 | a whole record leaves the file within the cap, or alone in it, if and only if the rotation it needed gave a new file |
| `LogFiles.StartKeeps` | app/src/logging.rs:57-71 | by sizes: a start keeps both files, unless a log that has reached the cap can be moved, which then becomes the previous file; and the handle it opens |
| `LogFiles.PreviousChangesIff` | app/src/logging.rs:139-148 | the previous file changes at a start if and only if such a log was there, directory, stat and rename succeeded, and it was not the previous file's very bytes |
| `LogFiles.FittingIsAdded` | app/src/logging.rs:105-117 | by sizes: a record that is first or fits is added behind its file, and no other byte changes |
| `LogFiles.FullIsMoved` | app/src/logging.rs:105-160 | one that does not fit moves the log out of its way; what is kept, for every failure |
| `LogFiles.UnwantedIsIgnored` | app/src/logging.rs:86-118 | a record below the level, or without a log, changes nothing |
| `LogFiles.SmallLosesNothing` | app/src/logging.rs:57-160 | over every run in which no start finds a full log and each record fits: no byte of either file is ever lost |
| `LogFiles.NamelessIff` | app/src/logging.rs:150-160 | over runs: the handle's file has no current name if and only if, since the last start, a needed rotation was renamed and not reopened |
| `LogFiles.NamelessForGood` | app/src/logging.rs:150-160 | from there nothing rotates before the next start and every record goes to the previous file |
| `LogFiles.RunKeepsValid` | app/src/logging.rs:57-160 | the handle's file always exists, and one that lost its name has no current file beside it |
| `LogFiles.FileLogger.Under` | app/src/logging.rs:57-71 | opening in place: the files and the handle, for every failure |
| `LogFiles.FileLogger.RotateOpenFile` | app/src/logging.rs:150-160 | rotation in place: the files and the handle, for every failure |
| `LogFiles.FileLogger.Write` | app/src/logging.rs:86-118 | writing in place: the files and the handle, for every failure |

## Left out

- Emulator.ChunkIndependence: compares the screens of blocks as bytes, because images and revisions of block screens, which are fed a segment at a time, are not modelled; the pane's own screen has both.
- The terminal's VT interpreter: a screen is the bytes it has been given since each reset, and text is read out of that by a parameter; scrollback limits, search, cursor and resize are not modelled.
- Hook bodies (hex, JSON) and OSC bodies: decoding is a parameter; `flush` of either tap at the end of a stream is not modelled.
- `BlockList` is a value whose functions the emulator's methods use, not a class: aliasing of its blocks is not modelled. Timestamps, durations and each block screen's own revision counter are left out.
- Blocks pushed or claimed between feeds (agent view cards, claims): `ChunkIndependence` holds from any valid block list, whatever they left.
- The image tap's decoding (Kitty, Sixel): `ScreenImages` holds for any machine that turns bytes into joined bytes, runs, images and deletions. Images on the screens of blocks are not modelled.
- Lock poisoning, process exit, the health watch, the state file of the last check, `relative_check`, `human_bytes` and the wording of statuses.
- Signatures, digests and manifests of updates: a check answers with an offer, nothing newer, or an error.
- `Space` geometry (floating, master stack, carousel), tab names and colours, pane hover flags, minimised panes.
- Other ways panes are made or moved (dragging, files, diffs, saved hosts, new tabs, the close button's confirmation): `TabProofs.RunsKeepWf` covers the control verbs and the tab menu.
- Handlers outside the verbs and the expand control that set the focus without `focus_pane` (a tab opened, a sidebar row) are not in `Maximized`.
- Verbs answered by the pty daemon never reach the UI thread's interpreter; in it they are an error, as in the code.
- The bytes a `send` verb writes, and the size a `resize` verb sets: the shell's answer is a parameter.
- The agent's activity states, the text of questions, the `agent_busy` copy, banners, drafts and attachments of the composer; a pane's turn state is its busy flag, its proposed command and its queued prompt.
- Which of several panes bound to one conversation, or holding one sub-agent, an event finds: any may be found.
- The bus events that leave busy flags, proposals, slots and bindings alone (tools, reasoning, usage, workflows, workers), and the selection a refresh of the conversation list may change, which is an event of its own.
- The command a `!` line runs in the shell. Where no model can run, the composer, Cmd+Enter and the control socket leave the text with the caller, and no prompt was taken.
- "Send to cloud" is Cmd+Enter in another mode and not an event of its own. The dashboard's other ways to clear a draft are edits of it.
- Prompt tags and the record of how prompts were settled are the model's own; no handler reads them.
- Store edits by another process: `MediaModel.RunsKeepWf` lets sessions and projects change at will, custom environments only through the dialog.
- `char::is_alphanumeric` outside ASCII is a parameter; whitespace is Unicode's list.
- MediumNames.FreshId: does not model the 32-bit suffix, which would overflow after two thousand million taken names.
- Session and project labels equal to their ids; the panes' working directory set on selection; the composer's environment routing.
- The log's records before they are lines (redaction, truncation, formatting), the stderr sink, and a second process writing the same files.
- A session stored with no medium appears under `local` in the project list and nowhere in the environment tree; both are modelled as the code has them, and neither is claimed to be meant.
