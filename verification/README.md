# Verified models of the voice front end

The system turns microphone audio into voice events: echo cancellation on a pool of
threads, beam forming and sound tracking, a sentence detector, an activation state
machine, a pitch tracker and a feature normaliser. This project models its stateful
core in Dafny and proves what each part is for. `dafny verify dfyconfig.toml` checks
everything.

Floating-point numbers are `real`, integers are unbounded, and logarithm, square root
and the angle between two directions are parameters of which no more is assumed than is
written down. Code that updates fields or buffers is a class or a method with loops;
each such member is tied to a function of values or to a reference definition, and the
laws are proved about those.

| module | part |
|---|---|
| AecPool | echo-canceller worker pool: threads, semaphores, mutex and queue as interleaved steps |
| Viterbi, Voicing, PitchRing, Candidates, Refinement | pitch search: dynamic program, what its costs mean, circular frame list with early commits, pruning, refined periods |
| Levinson, CrossCorr, Fir, Interpolation | numerical parts of the pitch tracker (RealSums holds finite sums) |
| Activation, ActivationEvents, ActivationObject, Rechunk | wake-word and VAD flags with their event stream, the decision table of a frame, the object; cutting input into frames |
| ByteBuffers, Detector | sentence detector over trimmed buffers under absolute frame numbers |
| FeatureStats, FeatureNorm, FeatureLaws, FeatureStream, FeatureWitness | checkpointed statistics, streamed differences, in-place normalisation, what it is for, and where it goes wrong |
| SoundTracker, Dictionary | lifetimes of sound sources; the string table of the configuration reader (Options holds optional values) |

Where the code does not do what its surroundings suggest, the model follows the code and
states exactly when the expected law holds:

- `process` overwrites a non-empty carry with an input that does not complete a frame
  (`Rechunk.ProcessLosesExactlyWhen`); `beam_forming` never loses a sample.
- `reset_asr` clears `canceled` before testing it, so a wake word can send a CANCEL
  outside any session (`Activation.StrictFrame`, `Activation.StrayCancelHappens`).
- Without `vad_enable` a segment ends without END and sessions pile up: the session
  discipline holds in every run if and only if the VAD is enabled
  (`Activation.DisciplineNeedsVad`), and in a run without it exactly if no frame opens a
  session twice (`Activation.DisabledRun`).
- `crossf` clamps the running energy only from the second lag on, and divides zero by
  zero at the first lag over a silent window (`CrossCorr.EntryInRange`,
  `CrossCorr.SilentLagIsNaN`).
- The checkpoint ring serves histories of 1 to 11901 frames; the comment beside it
  allows anything below 120 seconds (`FeatureStats.ExactIff`).
- Acceleration rows read delta rows already normalised once the normalisation delay is
  below two frames or switched off (`FeatureStream.QuietExact`,
  `FeatureStream.AccelerationError`, `FeatureStream.AccelerationReadsNormalised`,
  `FeatureWitness.UnquietIsWrong`).
- Shifting the feature tables while Norm_Diff2 lags behind drops rows it still reads, from
  slots that become negative (`FeatureStream.Extractor.AddBuf`, `FeatureStream.DropsExact`,
  `FeatureStream.EndUsesBoth`, `FeatureStream.RowsAreDropped`).
- `pchipend` computes a one-sided derivative and never returns it; the values it does
  return still keep the shape (`Interpolation.PchipEnd`).
- A start forced before the first frame makes the search for the end read row -1 once the
  closing silence exceeds the shortest sentence and that many frames are there
  (`Detector.EndBaseNegative`, `Detector.RowMinusOneIsRead`). `check_voice_activity`, which
  feeds one frame a call, is safe from it exactly as long as no closing silence lies
  between the shortest and the longest sentence (`Detector.FrameByFrame`,
  `Detector.FrameByFrameStrays`); its own 2000 frames against a limit of 1000 do not.
- `VAD::GetFrameProb` compares a relative index with an absolute maximum, so that frames
  ahead of the newest one can read rows not in use (`Detector.VoiceDetector.FrameProb`).
- `check_voice_activity` copies its leftover from `i * num_frames` instead of
  `i * frame_size`; after a stop in the middle of a call the wrong samples are carried
  (`Rechunk.VadCarryExact`, `Rechunk.StopInTheMiddle`).
- `ByteBuffer::Reset` keeps the recorded size, so that `Init` with the same size answers
  true without a buffer (`ByteBuffers.ResetThenInit`).

## Model

| member | source | states |
|---|---|---|
| AecPool.PoolSafe | r2ssp/r2ssp.cpp:256-602 | every state of every interleaving, for any number of channels and threads: a pop never meets an empty queue, no two workers hold one channel, nobody is near the queue during the unlocked push, output is copied only when every channel is done and all workers rest, every channel has consumed exactly its own frame of every call, shutdown gives each thread one exit token and no task |
| AecPool.NoDeadlock | r2ssp/r2ssp.cpp:358-602 | while the main thread is inside start-up, a call or shutdown, some thread can always move |
| AecPool.StepsAreBounded | r2ssp/r2ssp.cpp:358-602 | every step except the caller's decision to call or shut down strictly lowers a bound, so calls and shutdown finish under every schedule |
| AecPool.InvIsSafe | r2ssp/r2ssp.cpp:358-602 | the inductive invariant implies all the safety properties |
| AecPool.RunInv | r2ssp/r2ssp.cpp:256-602 | the invariant holds in every state of every run |
| AecPool.DoPreserves | r2ssp/r2ssp.cpp:256-602 | every step of any thread keeps the invariant and the numbers of channels and threads |
| AecPool.MainPreserves | r2ssp/r2ssp.cpp:256-602 | every step of the main thread keeps the invariant, the unlocked push included |
| AecPool.WorkerPreserves | r2ssp/r2ssp.cpp:358-390 | every step of a worker keeps the invariant |
| AecPool.PopFinds | r2ssp/r2ssp.cpp:365-375 | a worker that owns the mutex finds the oldest unpopped channel number in the queue |
| AecPool.WorkDone | r2ssp/r2ssp.cpp:376-386 | the canceller runs on an existing channel that has not been served in this call, and serves it once |
| AecPool.CallComplete | r2ssp/r2ssp.cpp:593-598 | when all stop tokens are taken, no task, token or lock is left and every channel is served |
| AecPool.IdleExact | r2ssp/r2ssp.cpp:587-602 | between calls each canceller has consumed exactly its own column of all calls, in call order |
| AecPool.MainUsesBound | r2ssp/r2ssp.cpp:587-602 | each main step inside a call uses up the bound |
| AecPool.WorkerUsesBound | r2ssp/r2ssp.cpp:358-390 | each worker step uses up the bound |
| Viterbi.DpOptimal | r2ssp/fe/Pitch.cpp:1687-1740 | `dpvals[k]` is the cost of the path `prept` traces and no candidate path into `k` is cheaper, for every frame and candidate |
| Voicing.OnsetLaw | r2ssp/fe/Pitch.cpp:1705-1707 | what entering voice costs beyond the fixed toll of the frame, times the energy ratio, is `tfact_a` |
| Voicing.OffsetLaw | r2ssp/fe/Pitch.cpp:1706-1721 | what leaving voice costs beyond the toll is `tfact_a` times the energy ratio, so the product of both excesses is `tfact_a` squared whatever the energy |
| Voicing.EnergyDecides | r2ssp/fe/Pitch.cpp:1706-1720 | as energy rises, entering voice gets strictly cheaper and leaving it strictly dearer |
| Voicing.SilenceIsFree | r2ssp/fe/Pitch.cpp:1722-1723 | staying unvoiced costs nothing |
| Voicing.ChangeLaw | r2ssp/fe/Pitch.cpp:1695-1704 | a change of lag costs its logarithm up to half of octave plus penalty, beyond that the penalty and the distance from the octave, whichever way the lag jumped |
| Voicing.SteadyLag | r2ssp/fe/Pitch.cpp:1695-1704 | keeping a lag is free, no change of lag is cheaper, and a doubled or halved lag costs the penalty at most |
| Voicing.OnsetWins | r2ssp/fe/Pitch.cpp:1687-1783 | behind a frame with the unvoiced candidate alone, the last frame of any utterance (costs below the float maximum, energy ratio positive) is voiced if and only if some voiced candidate beats the unvoiced one by toll plus `tfact_a` over the energy ratio |
| Voicing.OffsetWins | r2ssp/fe/Pitch.cpp:1687-1740 | into an unvoiced last frame the path comes from a voiced candidate if and only if one beats the unvoiced one by toll plus `tfact_a` times the energy ratio |
| Voicing.SteadyWins | r2ssp/fe/Pitch.cpp:1687-1783 | behind a frame with one voiced candidate, a voiced winner is locally no dearer than a candidate that keeps the lag |
| Voicing.FirstMin | r2ssp/fe/Pitch.cpp:1709-1729 | the search over previous candidates keeps the first of the cheapest |
| Voicing.TwoFrames | r2ssp/fe/Pitch.cpp:933-1890 | Get_f0 on two frames, one of them unvoiced only (costs below the float maximum): the other is reported with a frequency if and only if one of its candidates pays for the onset or the offset between them |
| Viterbi.GlobalOptimum | r2ssp/fe/Pitch.cpp:1770-1783 | tracing from the cheapest candidate of the last frame gives a cheapest path of the whole utterance |
| Viterbi.CommitSafe | r2ssp/fe/Pitch.cpp:1788-1810 | once all paths meet, every path traced later, whatever frames follow, begins with the committed piece |
| Viterbi.RunMatchesOffline | r2ssp/fe/Pitch.cpp:1761-1890 | any sequence of converged commits hands out, piece by piece, the beginning of the offline back-pointer path from any final candidate |
| Viterbi.PreptInRange | r2ssp/fe/Pitch.cpp:1710-1738 | a back pointer names a candidate of the previous frame |
| Viterbi.CheapestIsMin | r2ssp/fe/Pitch.cpp:1777-1783 | the search finds the first candidate of minimal cost |
| Viterbi.TraceCut | r2ssp/fe/Pitch.cpp:1795-1805 | a traced path cut at a frame is the path traced from the candidate it passes there |
| Viterbi.ColPrefix | r2ssp/fe/Pitch.cpp:1687-1740 | costs and back pointers of a frame do not depend on later frames |
| PitchRing.GetF0 | r2ssp/fe/Pitch.cpp:933-960 | for every split of an utterance into calls: each frame is reported exactly once and in order, with its energy, the peak of the chosen candidate and a frequency exactly if that is voiced; the report is the offline path from the cheapest final candidate, a cheapest path of the whole utterance, unless a guess was forced, which happens only after a call where `size_frame_out` frames waited and the paths met nowhere; it cannot fail on fewer frames than a ring grown six times holds |
| PitchRing.Call | r2ssp/fe/Pitch.cpp:939-950 | one call and the copy of its output |
| PitchRing.OfflineIsCheapest | r2ssp/fe/Pitch.cpp:1770-1783 | the offline path is a cheapest path of the whole utterance |
| PitchRing.Tracker.DpF0 | r2ssp/fe/Pitch.cpp:1620-1890 | one call: computed frames are appended, emitted plus active equals computed, output continues along one path, the last call empties the ring; it fails exactly if the waiting frames would fill a ring grown six times; a call that may hand out leaves no meeting point of the paths uncommitted, and hands out nothing only below `size_frame_out` |
| PitchRing.Tracker.constructor | r2ssp/fe/Pitch.cpp:1505-1518 | a new tracker holds a cycle of `size_cir_buffer` frames and nothing computed |
| PitchRing.LinkUp | r2ssp/fe/Pitch.cpp:1505-1518 | the frames linked one behind the other and joined at the ends are a doubly linked cycle |
| PitchRing.Tracker.Grow | r2ssp/fe/Pitch.cpp:1639-1649 | splicing in more frames keeps a doubly linked cycle and the order and content of the old frames |
| PitchRing.Tracker.MakeRoom | r2ssp/fe/Pitch.cpp:1620-1650 | headF steps on to a free frame; a full ring grows, and is an error exactly if it has grown six times |
| PitchRing.Tracker.Record | r2ssp/fe/Pitch.cpp:1652-1740 | the record written for a frame holds the column of the dynamic program over all frames so far |
| PitchRing.Tracker.Push | r2ssp/fe/Pitch.cpp:1622-1750 | one turn of the main loop adds exactly one frame to the active part |
| PitchRing.Tracker.PushAll | r2ssp/fe/Pitch.cpp:1622-1759 | all frames of a call become active, in order, exactly if the grown ring can hold them |
| PitchRing.Tracker.Converge | r2ssp/fe/Pitch.cpp:1788-1824 | the search stops at the newest frame where all paths meet; if they meet nowhere it guesses exactly when `size_frame_out` frames wait |
| PitchRing.Tracker.Backtrack | r2ssp/fe/Pitch.cpp:1829-1884 | the backtracking loop ends behind tailF having reported energy, peak, voicing and frequency from the refined lag along the traced path, newest frame first |
| PitchRing.Tracker.Retire | r2ssp/fe/Pitch.cpp:1885-1889 | tailF moves behind the committed frame: the ring stays a cycle, the frames still active keep their columns, and the count drops by the frames handed out |
| PitchRing.Tracker.Commit | r2ssp/fe/Pitch.cpp:1829-1889 | committing appends the traced path to the output and keeps the ring well formed |
| PitchRing.Tracker.HandOut | r2ssp/fe/Pitch.cpp:1761-1890 | the second half of dp_f0: nothing is emitted twice or out of order, the last call emits everything, any other call emits up to the newest meeting point |
| PitchRing.ComputeColumn | r2ssp/fe/Pitch.cpp:1687-1740 | the cost loops compute the column whose optimality DpOptimal and whose costs the Voicing laws state |
| PitchRing.AllEqual | r2ssp/fe/Pitch.cpp:1794-1798 | the convergence test: true exactly if all traced candidates agree |
| PitchRing.FindCheapest | r2ssp/fe/Pitch.cpp:1770-1783 | the loop over the newest frame finds the cheapest candidate |
| PitchRing.StepBack | r2ssp/fe/Pitch.cpp:1799-1802 | following the back pointers moves every traced candidate to where its path passes the frame before |
| PitchRing.AppendReversed | r2ssp/fe/Pitch.cpp:944-950 | output arrives newest first and is appended oldest first |
| Refinement.PitchNear | r2ssp/fe/Pitch.cpp:1854-1876 | so the reported frequency is finite and between those of the two half lags around the chosen one |
| Refinement.RefinedIsVertex | r2ssp/fe/Pitch.cpp:1856-1871 | the refined lag is the vertex of the parabola through the peak and its neighbours |
| Refinement.RefinedIsNear | r2ssp/fe/Pitch.cpp:1856-1871 | a local maximum moves by half a lag at most |
| Refinement.MovesUphill | r2ssp/fe/Pitch.cpp:1856-1871 | the period moves up exactly if the correlation one lag above the peak is higher than the one below and the peak is not flat, down exactly in the mirrored case |
| Refinement.PeriodNear | r2ssp/fe/Pitch.cpp:1854-1876 | so the reported period is positive and within half a lag of the chosen one |
| PitchRing.OpenAppend | r2ssp/fe/Pitch.cpp:1510-1514 | linking a frame behind the last keeps an open doubly linked chain |
| PitchRing.OpenClose | r2ssp/fe/Pitch.cpp:1515-1516 | joining the ends makes it a cycle |
| PitchRing.RotateLinked | r2ssp/fe/Pitch.cpp:1887 | moving tailF is a rotation of the cycle and keeps it well formed |
| PitchRing.SettledAfterCommit | r2ssp/fe/Pitch.cpp:1803-1809 | after a converged commit every candidate's path begins with all that was handed out |
| PitchRing.SettledStays | r2ssp/fe/Pitch.cpp:1803-1809 | and this stays so whatever frames follow |
| PitchRing.OfflineContinues | r2ssp/fe/Pitch.cpp:1785-1787 | as long as nothing was guessed, the offline path continues what was handed out |
| PitchRing.RetiredGood | r2ssp/fe/Pitch.cpp:1885-1889 | after retiring frames the remaining active frames still hold their columns |
| Candidates.Prune | r2ssp/fe/Pitch.cpp:1073-1091 | when there are `n_cands` peaks or more, the `n_cands - 1` highest come first in falling order, each with its own lag; the pairs are a permutation |
| Candidates.Bubble | r2ssp/fe/Pitch.cpp:1077-1089 | one pass brings the highest remaining peak to its place and permutes the pairs |
| Candidates.Exchange | r2ssp/fe/Pitch.cpp:1084-1088 | peak and lag move together |
| Candidates.FillFrame | r2ssp/fe/Pitch.cpp:1657-1681 | a frame holds `n_cands` candidates at most, as many as that allows, all taken from the peaks found; the peaks are permuted, and no dropped one was higher; each voiced cost falls short of one by the peak value with the share of the lag taken off, the unvoiced one exceeds the highest correlation by the bias |
| Candidates.Observe | r2ssp/fe/Pitch.cpp:1657-1681 | the unvoiced candidate comes last with lag -1; the others keep peak and lag |
| Candidates.ObservePrices | r2ssp/fe/Pitch.cpp:1657-1681 | the costs of all candidates of a frame, voiced and unvoiced |
| Candidates.CostOrder | r2ssp/fe/Pitch.cpp:1670-1679 | a peak that is no lower and comes no later never costs more; the unvoiced candidate costs the bias plus the maximum |
| Candidates.SwapKeepsMultiset | r2ssp/fe/Pitch.cpp:1084-1088 | a swap permutes the pairs |
| Levinson.XDurbin | r2ssp/fe/Pitch.cpp:279-307 | if no intermediate error is zero, the coefficients solve all p Toeplitz normal equations, are the step-up of the reflection coefficients, and the returned error is r0 plus the inner product of coefficients and lags and r0 times the product of 1 - k^2; otherwise some shorter solution has error zero |
| Levinson.NextSolves | r2ssp/fe/Pitch.cpp:292-304 | one step solves one more normal equation and multiplies the error by 1 - k^2 |
| Levinson.NextEqn | r2ssp/fe/Pitch.cpp:298-303 | the update mixes each normal equation with its mirror image |
| Levinson.StepUpNext | r2ssp/fe/Pitch.cpp:296-304 | one more reflection coefficient adds one order and shrinks the error by 1 - k^2 |
| Levinson.Correlate | r2ssp/fe/Pitch.cpp:292-296 | the first inner loop is minus what the next normal equation leaves over |
| Levinson.Reflect | r2ssp/fe/Pitch.cpp:297-303 | the two update loops add k times the reversed coefficients |
| CrossCorr.CrossF | r2ssp/fe/Pitch.cpp:474-544 | every correlation lies in [-1, 1], not a number exactly at the first lag when the lagged window there is silent; place and height of the maximum; on a signal that repeats after `p` samples, no window up to `p` being quieter than one, the maximum is one, at `p` or a smaller lag |
| CrossCorr.CrossFI | r2ssp/fe/Pitch.cpp:568-652 | a lag among the `nlags` lags around a candidate, or among the first ones when the candidate is too close to them, gets the biased normalised inner product in [-1, 1], every other lag zero; with patches of three and more a candidate's own lag and both its neighbours are computed; the maximum is the value its patch computed at its lag, and stands there unless a later patch covers it; a patch leaves the output array exactly if it is wider than that or reaches beyond it |
| CrossCorr.Scan | r2ssp/fe/Pitch.cpp:515-535 | the lag loop with its sliding energy computes the normalised inner product at each lag |
| CrossCorr.Patch | r2ssp/fe/Pitch.cpp:620-644 | one patch writes its own lags only |
| CrossCorr.Patches | r2ssp/fe/Pitch.cpp:619-645 | the last patch that holds an entry decides it, the rest stays zero; where the maximum stands; what a patch holds is PatchMembership |
| CrossCorr.PatchMembership | r2ssp/fe/Pitch.cpp:620-622 | a patch holds the `nlags` lags from half its width below the candidate on, or the first `nlags` lags if that lies in front of them |
| CrossCorr.PatchSurrounds | r2ssp/fe/Pitch.cpp:620-622 | a patch of three and more holds the candidate and both its neighbours |
| CrossCorr.EntryByCandidate | r2ssp/fe/Pitch.cpp:603-645 | an entry is zero if no candidate is near its lag and computed in the patch of one that is otherwise |
| CrossCorr.CandidateComputed | r2ssp/fe/Pitch.cpp:619-645 | the lag of every candidate and both neighbours are computed |
| CrossCorr.ComputedIsCorrelation | r2ssp/fe/Pitch.cpp:625-645 | while no window is quieter than one, the square of a computed entry times the biased product of both energies is the square of the inner product, and it has its sign |
| CrossCorr.LastPatchIs | r2ssp/fe/Pitch.cpp:619-623 | no later patch holds the entry |
| CrossCorr.CauchySchwarz | r2ssp/fe/Pitch.cpp:525-527 | the squared inner product is at most the product of the window energies |
| CrossCorr.EnergySlide | r2ssp/fe/Pitch.cpp:528-530 | dropping one square and adding one gives the energy of the next window |
| CrossCorr.RunningCovers | r2ssp/fe/Pitch.cpp:528-530 | despite the clamp to 1 the running energy is never below the true one |
| CrossCorr.RunningExact | r2ssp/fe/Pitch.cpp:528-530 | and equals it while no window is quieter than 1 |
| CrossCorr.EntryInRange | r2ssp/fe/Pitch.cpp:516-530 | a correlation is in range unless it is 0/0, and exactly when that is |
| CrossCorr.EntryIsCorrelation | r2ssp/fe/Pitch.cpp:505-533 | while no window is quieter than one, the square of an entry times the product of both energies, the bias added, is the square of the inner product, and it has its sign |
| CrossCorr.PeriodIsOne | r2ssp/fe/Pitch.cpp:505-533 | at the period of a signal the correlation is one, while no window up to it is quieter than one |
| CrossCorr.PeakAtPeriod | r2ssp/fe/Pitch.cpp:527-533 | so the highest correlation is one, at the period or at a smaller lag |
| CrossCorr.SilentLagIsNaN | r2ssp/fe/Pitch.cpp:516-527 | a signal followed by silence makes crossf divide zero by zero |
| Fir.Filter.Run | r2ssp/fe/Pitch.cpp:1226-1300 | the l-th output of any call, before the half added away from zero, is the symmetric filter applied to the whole signal at the call's first sample plus l * skip; the saved samples join the next call |
| Fir.Downsample | r2ssp/fe/Pitch.cpp:1226-1300 | any number of consecutive calls on overlapping buffers of one signal |
| Fir.AdjustedIs | r2ssp/fe/Pitch.cpp:1262-1270 | every output is moved away from zero by one half: the magnitude grows by it and the sign stays |
| Fir.Turn | r2ssp/fe/Pitch.cpp:1280-1285 | one pass sums all taps while the memory moves on by `skip` samples in place |
| Fir.Slide | r2ssp/fe/Pitch.cpp:1280-1282 | the first inner loop sums its taps while the memory moves down |
| Fir.TakeIn | r2ssp/fe/Pitch.cpp:1283-1284 | the second inner loop sums the rest and takes new data in |
| Fir.Filter.Turns | r2ssp/fe/Pitch.cpp:1279-1286 | the main loop of one call |
| Fir.Filter.Load | r2ssp/fe/Pitch.cpp:1226-1247 | the memory is the saved samples, or zeros at the beginning, followed by new data |
| Fir.Mirror | r2ssp/fe/Pitch.cpp:1230-1237 | the half filter is mirrored into the whole one |
| Fir.FilteredIsSymmetric | r2ssp/fe/Pitch.cpp:1196-1200 | the mirrored filter is the symmetric filter its half describes |
| Fir.Filter.constructor | r2ssp/fe/Pitch.cpp:1215-1224 | memory for the whole filter |
| Interpolation.Interpolate | r2ssp/fe/Pitch.cpp:2289-2349 | fewer than three voiced frames are an error; otherwise every gap carries the cubic with the source's slopes, every value lies between its two neighbouring knots, knots keep their values, and with non-negative end frames every frame is strictly positive before the logarithm |
| Interpolation.PchipEnd | r2ssp/fe/Pitch.cpp:2268-2276 | the end slope is admissible for its interval (it is 0 or three times the mean slope; the computed derivative is never returned) |
| Interpolation.PchipEndIs | r2ssp/fe/Pitch.cpp:2268-2276 | with the magnitude for `abs`, the end slope is three times the mean slope exactly where the next interval has the other sign and outweighs it, and zero everywhere else |
| Interpolation.InteriorOk | r2ssp/fe/Pitch.cpp:2323-2329 | the weighted harmonic mean is admissible for both neighbouring intervals |
| Interpolation.InteriorIsMean | r2ssp/fe/Pitch.cpp:2323-2329 | the interior slope solves the weighted-harmonic equation in both interval lengths and lies between the two mean slopes; it is zero where they do not have one sign |
| Interpolation.CubicWithin | r2ssp/fe/Pitch.cpp:2343-2349 | with admissible slopes the cubic stays between the two knots |
| Interpolation.RiseBounded | r2ssp/fe/Pitch.cpp:2337-2349 | the Hermite form is monotone enough to stay within the rise of the interval |
| Interpolation.CubicIsRise | r2ssp/fe/Pitch.cpp:2337-2346 | the nested polynomial with coefficients c and b is that Hermite form |
| Interpolation.Slopes | r2ssp/fe/Pitch.cpp:2320-2332 | all slopes, and that each is admissible on both sides |
| Interpolation.Differences | r2ssp/fe/Pitch.cpp:2313-2318 | lengths and mean slopes of the intervals between knots |
| Interpolation.Knots | r2ssp/fe/Pitch.cpp:2301-2308 | the voiced frames, in order and without omission |
| Interpolation.FillGap | r2ssp/fe/Pitch.cpp:2344-2348 | one gap gets the cubic, nothing else changes |
| Interpolation.FillAll | r2ssp/fe/Pitch.cpp:2343-2349 | all gaps |
| Interpolation.AllPositive | r2ssp/fe/Pitch.cpp:2289-2352 | values between positive knots are positive |
| Activation.SessionsHold | activation/activation/voice_activation.cpp:318-558 | with the VAD enabled, after any run and any interleaving of `control`: every DATA and END lies in an open session, two STARTs have a close between them, and a session is open exactly if `data_output && !canceled` |
| Activation.RunInv | activation/activation/voice_activation.cpp:318-465 | the flag invariant holds after every run |
| Activation.FrameInv | activation/activation/voice_activation.cpp:331-465 | one frame keeps the invariant, for the strict listener too unless a stray CANCEL arises |
| Activation.StrictFrame | activation/activation/voice_activation.cpp:318-329 | a frame sends a CANCEL outside a session if and only if a wake word arrives while a canceled session is still marked as output |
| Activation.StrictRun | activation/activation/voice_activation.cpp:318-329 | a whole run sends a CANCEL outside a session if and only if some frame of it does so in the sense of StrictFrame |
| Activation.StrayCancelHappens | activation/activation/voice_activation.cpp:318-329 | two wake words in a row reach that state: `reset_asr` clears `canceled` before it tests it |
| Activation.NeedsVadEnable | activation/activation/voice_activation.cpp:452-463 | a concrete run with the VAD disabled in which a second START comes without a close |
| Activation.DisciplineNeedsVad | activation/activation/voice_activation.cpp:452-463 | the discipline holds in every run if and only if the VAD is enabled |
| Activation.DisabledFrame | activation/activation/voice_activation.cpp:331-465 | with the VAD disabled a frame breaks the discipline if and only if it takes an opening branch while the listener still has a session open that the reset of a wake word does not close |
| Activation.DisabledRun | activation/activation/voice_activation.cpp:331-465 | with the VAD disabled a run is disciplined if and only if no frame of it does that |
| Activation.SessionHeard | activation/activation/voice_activation.cpp:397-451 | the session part breaks the discipline exactly by opening on top of an open session |
| Activation.NotBrokenIsDisciplined | activation/activation/voice_activation.cpp:331-465 | the listener automaton accepts only disciplined event streams |
| Activation.DisciplinedIsNotBroken | activation/activation/voice_activation.cpp:331-465 | and all of them |
| Activation.CheckVadFacts | activation/activation/voice_activation.cpp:519-558 | a start is reported only outside a segment, a stop only inside one, and a stop ends it |
| Activation.ControlsFrame | activation/activation/voice_activation.cpp:238-251 | whatever writes of `control` slip in, they change the two shared flags and send nothing |
| Activation.ResetTracks | activation/activation/voice_activation.cpp:318-329 | reset_asr leaves no session open and the flags in step, unless a strict listener meets a canceled session still marked as output |
| Activation.VadStartsTracks | activation/activation/voice_activation.cpp:371-385 | the start of a segment neither opens nor closes a session |
| Activation.WordEventsTracks | activation/activation/voice_activation.cpp:386-396 | word events touch no flag and no session |
| Activation.OpenTracks | activation/activation/voice_activation.cpp:399-416 | the opening branch sends START exactly when the flags say open afterwards |
| Activation.CancelTracks | activation/activation/voice_activation.cpp:418-436 | a session is canceled with a CANCEL or goes on |
| Activation.ResumeTracks | activation/activation/voice_activation.cpp:437-443 | a canceled session resumes with a START or stays closed |
| Activation.DataTracks | activation/activation/voice_activation.cpp:444-449 | data goes out only into an open session; what goes out is FrameTable |
| Activation.SessionTracks | activation/activation/voice_activation.cpp:397-451 | the whole session part keeps flags and listener in step |
| Activation.StopTracks | activation/activation/voice_activation.cpp:452-463 | the end of a segment sends END exactly if a session was open |
| Activation.AfterVadInv | activation/activation/voice_activation.cpp:371-463 | the frame after the detector answer keeps the invariant |
| ActivationObject.VoiceActivation.ProcessFrame | activation/activation/voice_activation.cpp:331-465 | one call of processfrm on the object keeps the flags in step with the listener: always with the VAD enabled, for a strict listener unless a stray CANCEL arises, with the VAD disabled unless a session is opened twice; it sends exactly the events of the decision table, in order, so each word found once and, with the VAD enabled, exactly the DATA owed |
| ActivationObject.Listen | activation/activation/voice_activation.cpp:331-465 | a whole run of the object, with `control` writing its flags at any time: the event stream is disciplined and the flags tell whether a session is open when the VAD is enabled; when it is disabled, disciplined exactly if no frame opens a session twice; every word is reported once for each frame that found it, and with the VAD enabled the number of DATA events is the number owed |
| ActivationEvents.FrameTable | activation/activation/voice_activation.cpp:318-465 | the events a frame sends, in order, and the flags it leaves, told from the flags before it, the bits and the encoder answers, whatever `control` makes the shared flags read as; if it stays out of the frame they read as before the call |
| ActivationEvents.FrameDelivers | activation/activation/voice_activation.cpp:331-465 | over the events a whole frame adds: LOCAL_SLEEP, WAKE_NOCMD, HOTWORD and LOCAL_WAKE exactly for their bit and word type, COMING and VT_INFO exactly for a wake word that starts a segment, and with the VAD enabled one DATA if the session is open when data is due, no wake word came and more than 100 units of data wait, and one more if the segment stops with any left; it is open then exactly if the frame ends it or, the segment going on, leaves it open |
| ActivationEvents.PreparedTable | activation/activation/voice_activation.cpp:318-396 | the flags and events up to the session part |
| ActivationEvents.SessionTable | activation/activation/voice_activation.cpp:397-451 | when the session part opens, cancels, resumes and sends, and the flags it leaves |
| ActivationEvents.OpenTable | activation/activation/voice_activation.cpp:399-416 | a session starts exactly on a command, or without any word when speech is wanted and was not just woken; a word without a command opens a canceled one |
| ActivationEvents.CancelTable | activation/activation/voice_activation.cpp:418-436 | a session is canceled exactly if it is too long with the VAD enabled, or neither woken nor wanted |
| ActivationEvents.ResumeTable | activation/activation/voice_activation.cpp:437-443 | a canceled session resumes exactly with the VAD enabled, woken and asked for by the encoder |
| ActivationEvents.DataTable | activation/activation/voice_activation.cpp:444-449 | the DATA events of an open session |
| ActivationEvents.StopTable | activation/activation/voice_activation.cpp:452-463 | the end of a segment: END exactly for an open session with the VAD enabled, and the flags it clears |
| ActivationEvents.VadTable | activation/activation/voice_activation.cpp:519-558 | a segment starts on the first answer outside one and stops on the next answer, so on counts of answers alone |
| ActivationEvents.CheckVadCounts | activation/activation/voice_activation.cpp:519-558 | start, stop and segment flag of check_voice_activity as counts of answers |
| ActivationEvents.Decoded | activation/activation/voice_activation.cpp:335-366 | the seven word flags of the frame as bits and word types |
| ActivationEvents.WordsOfRun | activation/activation/voice_activation.cpp:386-396 | in any run each word event is sent exactly once for every frame that found the word |
| ActivationEvents.DataOfRunSent | activation/activation/voice_activation.cpp:444-449 | with the VAD enabled, the DATA events of any run are exactly those owed |
| Rechunk.Rechunker.BeamForming | activation/activation/voice_activation.cpp:467-491 | frames passed on followed by the carried remainder equal everything received, for every microphone and any input size |
| Rechunk.Rechunker.BeamFormingAll | activation/activation/voice_activation.cpp:467-491 | the same over any sequence of calls |
| Rechunk.Rechunker.Process | activation/activation/voice_activation.cpp:291-315 | process passes on the same frames; its carry is right unless a non-empty carry meets an input that does not complete a frame |
| Rechunk.ProcessLosesExactlyWhen | activation/activation/voice_activation.cpp:310-314 | the carry of process is right for all contents if and only if a frame is completed, or the carry or the input is empty |
| Rechunk.Rechunker.Cut | activation/activation/voice_activation.cpp:470-484 | the frame loop cuts whole frames off carry and input |
| Rechunk.Rechunker.Save | activation/activation/voice_activation.cpp:485-489 | the rest is copied behind or over the carry |
| Rechunk.Joins | activation/activation/voice_activation.cpp:467-491 | frames cut off, then the remainder, are the whole stream |
| Rechunk.SaveTail | activation/activation/voice_activation.cpp:485-489 | the copy behind the loop leaves the remainder in front of the buffer |
| Rechunk.SaveCompletes | activation/activation/voice_activation.cpp:485-489 | a short input is appended to the carry |
| Rechunk.KeepsRemainder | activation/activation/voice_activation.cpp:310-314 | where process keeps its carry it is the remainder |
| Rechunk.SaveVad | activation/activation/voice_activation.cpp:562-563 | the copy of check_voice_activity carries what lies at `i * num_frames` |
| Rechunk.VadCarryExact | activation/activation/voice_activation.cpp:562-563 | that is the unused rest for every content if and only if nothing is left, no frame was used, or there are as many frames as a frame has samples |
| Rechunk.StopInTheMiddle | activation/activation/voice_activation.cpp:552-563 | fed whole frames the carry is right exactly if all of them were used, or in that one count |
| ByteBuffers.ByteBuffer.Init | ztvad/ByteBuffer.h:65-84 | sizes that make no sense are refused; otherwise an empty buffer of the size asked for, except after Reset of a buffer of that very size, where Init answers true without making one |
| ByteBuffers.ByteBuffer.Reset | ztvad/ByteBuffer.h:86-93 | the buffer goes, its recorded size stays |
| ByteBuffers.ResetThenInit | ztvad/ByteBuffer.h:65-93 | after Reset, Init with the old size answers true and the buffer takes nothing |
| ByteBuffers.ByteBuffer.Feed | ztvad/ByteBuffer.h:100-141 | nothing without a buffer; a growing buffer takes all or refuses all, a fixed one takes what fits; contents are appended |
| ByteBuffers.ByteBuffer.Grow | ztvad/ByteBuffer.h:107-129 | the larger buffer holds the same contents |
| ByteBuffers.ByteBuffer.Shift | ztvad/ByteBuffer.h:143-156 | the first bytes are forgotten, a negative count is refused |
| ByteBuffers.ByteBuffer.Clear | ztvad/ByteBuffer.h:95-98 | nothing is left |
| ByteBuffers.Accepted | ztvad/ByteBuffer.h:133-139 | a fixed buffer takes a prefix: all of it, or as much as fits |
| Detector.VoiceDetector.InputWave | ztvad/VoiceDetector.cpp:109-187 | for any chunking and any change of the closing silence: buffers stay coherent under absolute numbering; the reported start is max(0, i - W - P) for the first i >= W of everything ever seen that begins speech, or where it was forced; the reported stop is the first frame that ends speech by the parameters in force, or the end of the input; row -1 is read exactly under the stated condition; every new frame counts as voiced exactly if its silence is no likelier than its voice; a sentence that starts stands at the front of the buffers, and a detector that still listens holds less than half of them beyond what a start may need |
| Detector.Listen | ztvad/VoiceDetector.cpp:109-187 | a new detector, not forced, fed with any chunks: on voice alone, the threshold not above the window, the start is frame 0 as soon as one frame more than the window is there; on silence alone nothing ever starts, and silence in chunks that fit half the buffers less what a start may need never ends the input |
| Detector.VoiceFromTheFirst | ztvad/VoiceDetector.cpp:189-229 | voice from the first frame on starts at frame 0 exactly once one frame more than the window is there |
| Detector.SilenceNeverStarts | ztvad/VoiceDetector.cpp:189-229 | without a voiced frame there is neither start nor stop |
| Detector.StopMeans | ztvad/VoiceDetector.cpp:319-352 | a stop before the end of the input: the sentence is long enough, silence outweighs voice over the closing window, and its voiced frames are no more than the ratio leaves |
| Detector.SilenceStops | ztvad/VoiceDetector.cpp:319-352 | a closing window of silence stops every sentence that is long enough |
| Detector.VoiceDetector.VoiceFrames | ztvad/VoiceDetector.cpp:354-362 | the frames from start to stop in absolute numbers, or so far |
| Detector.VoiceDetector.StartAt | ztvad/VoiceDetector.cpp:202-212 | where the start is put and what is dropped in front of it |
| Detector.VoiceDetector.Absorb | ztvad/VoiceDetector.cpp:129-161 | new samples and rows arrive without disturbing the old ones |
| Detector.VoiceDetector.FindBegin | ztvad/VoiceDetector.cpp:189-229 | the begin is found in the trimmed buffer where the reference finds it in the whole history |
| Detector.VoiceDetector.TrimSilence | ztvad/VoiceDetector.cpp:163-175 | dropping silence in front leaves enough frames for every later window and frees the other half of the buffers |
| Detector.VoiceDetector.FindEnd | ztvad/VoiceDetector.cpp:319-352 | the stop is the first ending frame, and row -1 is read if and only if the start was forced before any frame, the closing silence exceeds the shortest sentence and that many frames are there |
| Detector.VoiceDetector.Judge | ztvad/VoiceDetector.cpp:163-186 | begin, trimming and end together find what the reference finds |
| Detector.VoiceDetector.OffsetFrames | ztvad/VoiceDetector.cpp:252-317 | waves, rows and both offsets move together |
| Detector.VoiceDetector.EnergyVad | ztvad/VAD.cpp:285-387 | new rows are appended behind the rows in use |
| Detector.VoiceDetector.CopyRows | ztvad/VoiceDetector.cpp:152-161 | the detector copies exactly the new rows of the frame VAD, voiced unless silence is the likelier |
| Detector.VoiceDetector.FrameProb | ztvad/VAD.cpp:530-538 | in a coherent detector a frame still held reads as computed and a frame dropped or far ahead reads zero; the `offset` frame numbers from the next one on read rows not in use, because a relative index is compared with an absolute maximum |
| Detector.VoiceDetector.Restart | ztvad/VoiceDetector.cpp:74-91 | back to frame zero |
| Detector.VoiceDetector.ClearBuffers | ztvad/VAD.cpp:168-177 | counters and offsets of the frame VAD are zero again |
| Detector.VoiceDetector.ForceStart | ztvad/VoiceDetector.cpp:231-250 | from any state: the sentence starts with the newest frame, or with the first to come, unless it has already started |
| Detector.VoiceDetector.SetMinSil | activation/activation/voice_activation.cpp:567-570 | a new closing silence at any time keeps the detector valid; the quota of silent frames follows it |
| Detector.VoiceDetector.Hear | ztvad/VoiceDetector.cpp:126-186 | one call that is not refused: new rows, then judgement |
| Detector.VoiceDetector.BeginHere | ztvad/VoiceDetector.cpp:235-246 | the forced start keeps the buffers coherent |
| Detector.JudgeBegin | ztvad/VoiceDetector.cpp:189-229 | the sliding count finds the first voiced frame whose preceding window has enough voiced frames |
| Detector.JudgeEnd | ztvad/VoiceDetector.cpp:319-352 | the sliding sums find the first frame that ends speech |
| Detector.BeginIsGlobal | ztvad/VoiceDetector.cpp:163-229 | trimming and chunking do not move the begin |
| Detector.EndIsGlobal | ztvad/VoiceDetector.cpp:319-352 | nor the end |
| Detector.EndGuards | ztvad/VoiceDetector.cpp:319-323 | the early returns skip no end |
| Detector.EndBaseNegative | ztvad/VoiceDetector.cpp:319-330 | in a started detector JudgeVoiceEnd passes its early returns with a search starting in front of the buffer exactly if the start was forced with no frame there and minSpeech < minSil <= frames |
| Detector.RowMinusOneIsRead | ztvad/NNVadIntf.cpp:229-297 | with the detector defaults, VD_SetStart before any frame, a closing silence set to 2000 and 2000 frames in one call make the search for the end read row -1 |
| Detector.FrameByFrame | activation/activation/voice_activation.cpp:526-532 | fed at most one frame a call, and with no closing silence between the shortest and the longest sentence, the detector never strays, however often it is forced, changed or restarted |
| Detector.FrameByFrameStrays | ztvad/VoiceDetector.cpp:319-330 | with any other closing silence a sentence forced at the start and fed frame by frame does read row -1 |
| Detector.OneFrame | activation/activation/voice_activation.cpp:532 | one frame keeps this |
| Detector.ForcedOk | ztvad/VoiceDetector.cpp:235-246 | a forced start, with or without trimming, is a started sentence |
| Detector.StartIsReference | ztvad/VoiceDetector.cpp:163-229 | a valid detector reports the start of the reference |
| Detector.StopIsReference | ztvad/VoiceDetector.cpp:177-184 | a judged detector reports the stop of the reference over the whole history |
| Detector.FirstEndIs | ztvad/VoiceDetector.cpp:331-350 | the reference stop is the first frame that ends speech |
| Detector.TrimCoherent | ztvad/VoiceDetector.cpp:252-317 | shifting wave buffer and both tables by the same frames keeps row i and frame i at absolute frame i + offset |
| Detector.AbsorbCoherent | ztvad/VoiceDetector.cpp:129-161 | so does taking in data; table indices stay below 6000 |
| Detector.WindowShift | ztvad/VoiceDetector.cpp:189-229 | a window reads the same in a buffer that starts later |
| Detector.WindowExtend | ztvad/VoiceDetector.cpp:189-229 | and when more frames have arrived |
| Detector.FirstFromIs | ztvad/VoiceDetector.cpp:189-229 | the reference is the first frame that begins speech |
| FeatureStats.ExactIff | r2ssp/fe/PLP.cpp:653-695 | prefix sum minus ring entry is the true sum over [100 * nPot, nFrame) for every column, count and stale ring if and only if the history is 1 to 11901 frames |
| FeatureStats.StaleRead | r2ssp/fe/PLP.cpp:684-695 | for every other history a column of ones is summed wrongly |
| FeatureStats.WindowExact | r2ssp/fe/PLP.cpp:684-695 | the exact window sum in every reachable accumulator |
| FeatureStats.NeededIsKept | r2ssp/fe/PLP.cpp:684-688 | the checkpoint needed has been taken and not overwritten |
| FeatureStats.AbsorbedOk | r2ssp/fe/PLP.cpp:649-667 | after any number of frames the running sum is the prefix sum and every checkpoint not yet overwritten holds its own |
| FeatureStats.AbsorbKeeps | r2ssp/fe/PLP.cpp:653-665 | one frame keeps this |
| FeatureStats.VarianceNonNeg | r2ssp/fe/PLP.cpp:728-745 | the radicand is not negative whenever the prior second moment is at least the squared prior mean |
| FeatureNorm.Differentiate | r2ssp/fe/PLP.cpp:1234-1252 | a difference loop writes the clamped slope of the source column into exactly its own rows |
| FeatureNorm.Difference | r2ssp/fe/PLP.cpp:1235-1251 | one row, with indices clamped to the frames there are |
| FeatureNorm.Extend | r2ssp/fe/PLP.cpp:1234-1275 | the rows computed by one call continue the table, normalised rows stay |
| FeatureNorm.SlopeExtends | r2ssp/fe/PLP.cpp:1241-1244 | two frames behind the end a slope does not depend on later frames |
| FeatureNorm.SlopeNear | r2ssp/fe/PLP.cpp:1237-1251 | a slope reads nothing before d - 2 |
| FeatureNorm.AbsorbRows | r2ssp/fe/PLP.cpp:649-727 | the sums (or sums of squares) catch up with the rows |
| FeatureNorm.Gather | r2ssp/fe/PLP.cpp:649-727 | the statistics cover the rows as computed, none of them normalised yet |
| FeatureNorm.WindowMean | r2ssp/fe/PLP.cpp:684-695 | the mean is that of the window and the weighted prior |
| FeatureNorm.Statistics | r2ssp/fe/PLP.cpp:684-745 | mean and deviation of the window |
| FeatureNorm.VarianceHolds | r2ssp/fe/PLP.cpp:728-745 | the square root is never taken of a negative number |
| FeatureNorm.Normalise | r2ssp/fe/PLP.cpp:789-850 | each row is normalised once, in place: its value times the deviation plus the mean is the row as computed |
| FeatureNorm.NormaliseRows | r2ssp/fe/PLP.cpp:789-829 | the loop changes the rows that are due and no others, and from each the row as computed can be had back |
| FeatureLaws.OneCall | r2ssp/fe/PLP.cpp:684-817 | a window normalised in one call without prior weight has sum zero, and with variance normalisation, a true root and a variance above the floor, its squares sum to the number of frames |
| FeatureLaws.PriorPull | r2ssp/fe/PLP.cpp:684-817 | the normalised rows of a window sum, in deviations, to the weight of the prior times the distance it pulls the mean |
| FeatureLaws.SquaresLaw | r2ssp/fe/PLP.cpp:684-817 | without prior weight their squares times the squared divisor are the variance times the number of frames |
| FeatureLaws.DeviationIs | r2ssp/fe/PLP.cpp:728-745 | the squared deviation is the variance, and exactly below one millionth the floor stands in |
| FeatureStream.Extract | r2ssp/fe/PLP.cpp:946-1284 | for any split of an utterance into chunks, with Norm_Diff2 called after any of them: the sizes alone decide which chunks are taken, whether a row still to be read is dropped and whether the run is quiet; unless one is dropped, the delta rows are the clamped slopes of the features of the samples taken, each computed once, from rows not yet normalised, all rows end normalised, and acceleration rows are the slopes of the deltas if the run is quiet; an utterance normalised at its end alone, without prior weight, ends with mean zero and variance one over the last window of all three tables |
| FeatureStream.PacedIsTaken | r2ssp/fe/PLP.cpp:953-975 | an utterance that fits the tables, or comes in short chunks each followed by a call, is taken whole and loses nothing |
| FeatureStream.RowsAreDropped | r2ssp/fe/PLP.cpp:953-975 | 6001 frames and one sample more, without a call, drop rows still to be read |
| FeatureStream.DropsExact | r2ssp/fe/PLP.cpp:968-974 | a row is dropped exactly if its slot in the shifted table is negative |
| FeatureStream.EndUsesBoth | r2ssp/fe/PLP.cpp:1253-1284 | the next call with the end flag uses both rows the condition speaks of |
| FeatureWitness.UnquietIsWrong | r2ssp/fe/PLP.cpp:1253-1275 | the converse, with or without variance normalisation: for the sizes, calls and settings of any run that loses no row and is not quiet, a ramp cut the same way ends with acceleration rows that are not the slopes of the deltas |
| FeatureWitness.CallTells | r2ssp/fe/PLP.cpp:1253-1275 | one call keeps a run quiet, wrong for good, or about to go wrong |
| FeatureWitness.TouchedErrs | r2ssp/fe/PLP.cpp:1253-1275 | the first acceleration row that reads a lowered delta row comes out too high |
| FeatureWitness.CallLowers | r2ssp/fe/PLP.cpp:789-850 | on a ramp every normalised delta row is below the computed one |
| FeatureWitness.OutcomeLower | r2ssp/fe/PLP.cpp:684-829 | a row of a steep rising column comes out of the normalisation lower than it went in |
| FeatureWitness.VarianceCovers | r2ssp/fe/PLP.cpp:728-732 | the variance times the count covers the squared deviation of the newest row |
| FeatureStream.Feed | r2ssp/fe/PLP.cpp:953-1284 | one chunk with or without a call: what both leave of the tables |
| FeatureStream.Extractor.NormDiff2 | r2ssp/fe/PLP.cpp:1233-1284 | one call: what each table computed and normalised, with which statistics; in all three tables a normalised row times the deviation plus the mean is the row as computed, and without prior weight a window that lies in the call ends with mean zero and variance one; keeps the invariant |
| FeatureStream.Extractor.AddBuf | r2ssp/fe/PLP.cpp:953-1189 | accepted exactly if the samples fit, at once or after a shift; a refused chunk changes nothing; frames are those of the whole signal; a shift drops a row still to be read exactly under the stated condition on the indices |
| FeatureStream.Extractor.Resume | r2ssp/fe/PLP.cpp:901-944 | everything starts again, whatever rings and rows held |
| FeatureStream.Extractor.constructor | r2ssp/fe/PLP.cpp:901-944 | a new extractor is in the state Resume leaves |
| FeatureStream.NormAll | r2ssp/fe/PLP.cpp:646-850 | which rows enter the statistics and which are normalised |
| FeatureStream.Differences | r2ssp/fe/PLP.cpp:1233-1275 | both difference loops; delta rows are always computed from features as computed |
| FeatureStream.QuietExact | r2ssp/fe/PLP.cpp:1253-1267 | a call leaves all delta rows the next acceleration loop reads unnormalised if and only if the caller-visible condition on frame count and delays holds |
| FeatureStream.AccelerationError | r2ssp/fe/PLP.cpp:1253-1275 | by exactly how much an acceleration row differs from the slope of the computed deltas |
| FeatureStream.AccelerationReadsNormalised | r2ssp/fe/PLP.cpp:1253-1275 | five frames and the end flag reach a run, with the delay off, whose acceleration rows are not the slopes of its deltas |
| FeatureStream.FrameFits | r2ssp/fe/PLP.cpp:978-980 | frame i is counted exactly if its samples are there |
| FeatureStream.ShiftForward | r2ssp/fe/PLP.cpp:954-967 | a shift that makes room goes forward; the other case is refused |
| FeatureStream.ShortIsTaken | r2ssp/fe/PLP.cpp:954-967 | a chunk of up to 5001 shifts less one frame length is always accepted |
| FeatureStream.FramesFit | r2ssp/fe/PLP.cpp:954-980 | no table index leaves the table |
| FeatureStream.ShiftAll | r2ssp/fe/PLP.cpp:968-974 | samples and three tables shifted together |
| FeatureStream.ShiftTable | r2ssp/fe/PLP.cpp:969-971 | one table shifted, its live rows unchanged |
| FeatureStream.Append | r2ssp/fe/PLP.cpp:976-1008 | new samples and the frames they complete |
| FeatureStream.FillBase | r2ssp/fe/PLP.cpp:1004-1008 | each new frame is computed from its own samples of the whole signal |
| SoundTracker.Tracker.Tick | r2ssp/bf/r2_soundtracker.cpp:99-155 | the three vectors stay aligned; a source disappears exactly at its seventh silent tick in a row; the others keep order, serial and 1 to 7 entries; a queue whose voiced entries have positive confidence and a direction within the turn shows its average, with an azimuth in [0, 2 pi) |
| SoundTracker.Tracker.AddCandidate | r2ssp/bf/r2_soundtracker.cpp:33-82 | any candidate, sane or not, joins the closest source within 15 degrees or starts one with a new serial; serials stay unique |
| SoundTracker.BestOfTick | r2ssp/bf/r2_soundtracker.cpp:68-81 | all candidates one tick offers to a source leave one entry more, the most confident of them and the first of equals |
| SoundTracker.NotedBest | r2ssp/bf/r2_soundtracker.cpp:68-81 | the last entry is no less confident than the candidate, nor than one of the same tick before it |
| SoundTracker.Tracker.Reset | r2ssp/bf/r2_soundtracker.cpp:172-177 | no source, serials from zero |
| SoundTracker.TickOne | r2ssp/bf/r2_soundtracker.cpp:101-153 | one source in one tick: aged queue, drop decision, new average |
| SoundTracker.Average | r2ssp/bf/r2_soundtracker.cpp:114-139 | for sane entries confidence is the total weight, elevation the weighted mean, azimuth moves the shortest way by the share of each entry and stays in [0, 2 pi) |
| SoundTracker.SteadyIsShown | r2ssp/bf/r2_soundtracker.cpp:114-153 | a source whose entries all agree shows just their direction and confidence: the place weights are normalised away |
| SoundTracker.AgedLife | r2ssp/bf/r2_soundtracker.cpp:102-140 | nothing voiced is left exactly after seven silent ticks in a row |
| SoundTracker.KeepExact | r2ssp/bf/r2_soundtracker.cpp:140-145 | who survives, in the old order |
| SoundTracker.MergeInTurn | r2ssp/bf/r2_soundtracker.cpp:126-133 | with positive confidences one correction by 2 pi is enough |
| SoundTracker.MergeTowards | r2ssp/bf/r2_soundtracker.cpp:126-133 | the azimuth moves the shortest way |
| SoundTracker.MergeElevation | r2ssp/bf/r2_soundtracker.cpp:134 | elevation times weight adds up |
| SoundTracker.RoundAzimuth | r2ssp/bf/r2_soundtracker.cpp:84-97 | the copy of the azimuth nearest to the centre |
| SoundTracker.RoundIsNear | r2ssp/bf/r2_soundtracker.cpp:84-97 | it is at most half a turn away |
| SoundTracker.FindClosest | r2ssp/bf/r2_soundtracker.cpp:38-51 | the first of the closest candidates within the cluster angle, or none |
| Dictionary.Replay | r2ssp/fe/dictionary.cpp:127-334 | any run of set, get and unset on a new dictionary answers as a plain map does, and n is the size of that map |
| Dictionary.Perform | r2ssp/fe/dictionary.cpp:185-334 | one operation |
| Dictionary.Dict.constructor | r2ssp/fe/dictionary.cpp:127-142 | an empty map in at least 128 slots |
| Dictionary.Dict.Get | r2ssp/fe/dictionary.cpp:185-203 | the value of the map, or the default |
| Dictionary.Dict.Set | r2ssp/fe/dictionary.cpp:231-286 | the map updated; the table doubles exactly if it was full and the key new; no key, no change and failure |
| Dictionary.Dict.Unset | r2ssp/fe/dictionary.cpp:299-334 | the key removed; nothing for an absent or missing key |
| Dictionary.Dict.Find | r2ssp/fe/dictionary.cpp:190-201 | the hash-filtered scan finds a key exactly if the map has it |
| Dictionary.Dict.FirstEmpty | r2ssp/fe/dictionary.cpp:273-279 | the scan for an empty slot succeeds whenever the table is not full |
| Dictionary.Dict.Grow | r2ssp/fe/dictionary.cpp:259-271 | twice the slots, the same map |
| Dictionary.Dict.Add | r2ssp/fe/dictionary.cpp:273-284 | the key goes into the first empty slot |
| Dictionary.Inserted | r2ssp/fe/dictionary.cpp:281-284 | a new key in an empty slot is one more entry of the map |
| Dictionary.Removed | r2ssp/fe/dictionary.cpp:325-332 | a cleared slot is one entry less |
| Dictionary.Replaced | r2ssp/fe/dictionary.cpp:247-252 | a new value for a stored key |
| Dictionary.Doubled | r2ssp/fe/dictionary.cpp:262-270 | empty slots do not change the map |
| Dictionary.OccupiedBound | r2ssp/fe/dictionary.cpp:259-279 | the occupied slots fill the table exactly if no slot is empty |

## Left out

- Floating-point rounding, overflow of integer counters and serials, and float comparison with NaN outside `crossf`: all arithmetic is exact. `Viterbi.Representable` names the one place where the float maximum matters.
- PitchRing.Tracker.DpF0: the forced best-guess output (1815-1820) is modelled and flagged, but the offline law is not claimed after it.
- PitchRing.Tracker.Backtrack: the reallocation of the output arrays is not modelled.
- PitchRing.GetF0: sample windows, stationarity and candidate search (`get_cand`, `get_fast_cands` before pruning) are inputs; frames live in an arena of indices instead of heap pointers, so freeing them is not modelled.
- Candidates.Prune: models the second of two identical pruning loops; the first (1046-1064) is the same code.
- Fir.Filter.Run: the inverted filter and the flush at the end of the signal (`init & 2`) are not modelled; the caller supplies the padding the loop reads.
- Levinson.XDurbin: orders up to the size of the local array (100), where the source is defined.
- Interpolation.Interpolate: stops before the logarithm and the moving average; an utterance without frames, where the source indexes out of range, is excluded; which `abs` the end slope uses is left open.
- CrossCorr.CrossFI: after a patch that leaves the output array nothing is claimed.
- The voice output buffer of `check_voice_activity`: only the ON/OFF logic and the carried rest are modelled.
- Rechunk.SaveVad: a copy that would leave the buffer is excluded.
- ActivationObject.VoiceActivation.ProcessFrame: wake-word, encoder and detector answers are inputs of the frame; single writes of `control` may fall between any two accesses to the flags it shares.
- Detector.VoiceDetector.InputWave: one sample type, energy mode, pitch gating off; the probability of a frame is an arbitrary value of its number; of the parameters only the closing silence changes during a sentence; once row -1 has been read nothing more is claimed until a restart.
- ByteBuffers.ByteBuffer.Init: allocation failure is not modelled.
- FeatureStream.Extractor.AddBuf: once a row still to be read has been dropped nothing more is claimed until Resume; the copy of the assembled feature rows is not modelled.
- FeatureWitness.UnquietIsWrong: with variance normalisation the root is a true square root and the prior has a variance.
- FeatureStream.Extractor.NormDiff2: one feature column of each table, full-band mode; context stacking behind it (LDA part) is not modelled.
- Spectral front end of AddBuf, dither and energies: the feature of a frame is an arbitrary function of its samples.
- SoundTracker.Tracker.AddCandidate: silent entries are made by Tick alone; the angle between directions is a parameter. Before Reset the serial counter has no value in the source; the constructor starts it at zero.
- SoundTracker.Tracker.Tick: of a queue with an entry of no confidence or a direction outside the turn only lifetime and serial are claimed; where its weights add up to zero a parameter stands for the not-a-number.
- Sorting in GetCandidates of the sound tracker: a library call.
- Dictionary.Dict.Set: allocation failure is not modelled; the hash is an arbitrary function, so its particular mixing does not matter.
- Dictionary dump and the configuration file parser: text formatting and scanning.
- Wake-word tables, phoneme tables, audio format conversion, event hub, frame delayer and generic buffer manager: easier members only.
- JNI entry points, handle wrappers, logging, model loading and third-party code (speexdsp, webrtc, kaldi, blis, FFTW, r2_vbv, r2mem_cod): their results are arbitrary inputs.
