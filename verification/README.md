# VoiceRoom: a verification model

VoiceRoom is a voice-chat service. This project models the parts of it whose correctness is an argument
about arithmetic, whole runs or interleavings, and proves that argument in Dafny. `dafny verify
dfyconfig.toml` checks everything.

| modules | what they model |
|---|---|
| `VoiceLevels`, `VoiceJudgement`, `VoiceVerdicts`, `VoiceCounts` (with `Bags`) | how one stream sounded, and who is said to sound bad or hear badly, and why; `VoiceCounts` says it by counting streams in the reports |
| `CallPeak` | the most people in a call at once |
| `DesktopAudioQueue` | the queue of shared desktop sound |
| `NoiseGate`, `SilenceFloor`, `SpeakingDetector` | the three processors on the microphone's audio thread |
| `BoundedMap`, `Windows`, `RateLimiter`, `FailureLimiter` | the fixed-window limiters over a bounded map |
| `LoadRounds` | the request rounds of an admin section |
| `MigrationGuard` | migration processes sharing an advisory lock and a guard row |
| `LeaseRuntime` | the fenced lease runtime of a worker |
| `Ipv6Text`, `IpKey` | IPv6 text forms and the keys that stand for addresses |
| `Base64Url`, `CursorJson`, `CursorText`, `CursorCodec` | signed pagination cursors |
| `LeadingZeros`, `ProofOfWork` | proof-of-work challenges |
| `ServiceCache` | services cached for the life of a database pool |
| `Text`, `Arithmetic`, `Options` | strings and numerals; steps of multiplication and division; missing values |

Code that changes state in place is a class or a method with loops here too, and each such method is proved
against a function or a ghost history of the same module. The lemmas beside it say what that function or
history means. Protocols (`MigrationGuard`, `LeaseRuntime`, `LoadRounds`) are state machines: one action is one
query, one resumed await, one callback or one commit, and the statements are about every sequence of possible
actions.

## Assumptions

- Clocks given to the limiters and to the proof of work never go back. Times, limits, window lengths, channel
  counts and hold lengths are whole numbers.
- Audio samples, rates and percentages are real numbers: rounding of floats, NaN and infinities are not modelled.
  The speaking detector compares the squares of the level and the threshold, which needs a threshold of at least
  zero, as the conversion from decibels gives.
- SHA-256, HMAC and the signature of a challenge are function parameters. Where a property needs two inputs to
  have different digests, its `requires` says so of those inputs. `net.isIP` and `JSON.parse` are parameters too;
  `JSON.parse` is only assumed to read back the payload texts that the model writes, and
  `CursorCodec.LawfulPlatform` shows that some parser does.
- In the lease runtime `acquire` rejects once its signal aborts, and `onHeartbeat` does not throw.
- In an admin section a React commit and its effects are one step, with the `rendered` effect before the load
  effect.
- An advisory lock is lost only with its session, except in `MigrationGuard.CompletedIsEarned`,
  `MigrationGuard.CompletesExactly`, `MigrationGuard.LossIsHarmlessExactly` and `MigrationGuard.LostLockLetsTwoRun`,
  which are about losing it.
- Text is a sequence of Unicode scalar values, so lone surrogates do not occur.

## Where the code and its descriptions differ

- The rate limiter admits at most `2 * limit - 1` calls in a half-open span of one window, one fewer than two
  full windows would, and at most `limit` for a window of one millisecond; both bounds are reached
  (`RateLimiter.FewerThanTwiceTheLimit`, `RateLimiter.MostIsReached`).
- A level that was `bad` can become `unstable` when only the number of gaps grows (`VoiceLevels.MoreGapsCanLiftBad`).
  It does so exactly when less than 18 % was made up and the gaps now counted are shorter than 50 ms on average;
  otherwise more gaps never improve the level (`VoiceLevels.MoreGapsNeverImproveExactly`).
- Two reports under one peer id can make their order decide the verdict (`VoiceVerdicts.OrderMattersForOnePeerTwice`).
  It cannot as long as they agree on round trip and uplink loss (`VoiceVerdicts.OrderDoesNotMatter`).
- "A block with anything audible in it passes through untouched" holds exactly when the silence floor's hold is
  not zero, or the block is all zeros and audible only to a floor of zero
  (`SilenceFloor.SilenceFloorProcessor.ProcessAudible`).
- A challenge's mark ends at the moment the challenge is still valid for: accepted in the millisecond it was
  issued, it is accepted again `ttlMs` later (`ProofOfWork.AcceptedAgainExactly`). A difficulty above 32 is issued
  but never reads back (`ProofOfWork.IssuedReadsBack`).
- With a `maxBackoffMs` below one the wait is still one millisecond (`LeaseRuntime.BackoffGrows`).
- A `stop` between the grant of a lease and the loop's taking hold of it does not end ownership
  (`LeaseRuntime.StopEndsOwnershipExactly`, `LeaseRuntime.GrantIsReachable`).
- The lock is checked before the guard is read and again after the runner. Were it lost in between, that protects
  the runner exactly from the moment the guard is marked (`MigrationGuard.LossIsHarmlessExactly`,
  `MigrationGuard.LostLockLetsTwoRun`).
- A cursor for a `bigint` timestamp that is negative or has more than 20 digits encodes but never decodes
  (`CursorCodec.BigintReadsBackExactly`, `CursorCodec.NegativeBigintIsLost`).

## Model

| member | source | states |
|---|---|---|
| VoiceLevels.RoundedShare | packages/shared/src/voice-quality.ts:131-138 | rounding to a tenth of a percent moves a whole percent threshold down by exactly half a tenth, as a comparison of whole samples |
| VoiceLevels.DropoutIsExact | packages/shared/src/voice-quality.ts:154-158 | the dropout test of a poll is two comparisons of whole samples |
| VoiceLevels.LongGapsAreExact | packages/shared/src/voice-quality.ts:148-151 | an average gap of 50 ms or more is 2400 made-up samples for each counted gap |
| VoiceLevels.RateIsExact | packages/shared/src/voice-quality.ts:141-145 | ten gaps a minute of speech is 288 000 samples of speech at most for each gap |
| VoiceLevels.StreamLevelIsExact | packages/shared/src/voice-quality.ts:165-175 | on every input the level equals a definition without division or rounding |
| VoiceLevels.LongGapsCountRaw | packages/shared/src/voice-quality.ts:126-151 | a long average gap forces the counted gaps to be the raw gaps |
| VoiceLevels.MoreConcealmentNeverImproves | packages/shared/src/voice-quality.ts:165-175 | with packets and gaps fixed, more made-up speech never improves the level and never silences it |
| VoiceLevels.AverageGapCanFall | packages/shared/src/voice-quality.ts:148-151 | the average gap itself can fall while more speech is made up |
| VoiceLevels.MoreGapsNeverTurnGood | packages/shared/src/voice-quality.ts:165-175 | with concealment fixed, more gaps never turn a level that was not good into good |
| VoiceLevels.MoreGapsNeverImproveExactly | packages/shared/src/voice-quality.ts:165-175 | more gaps never improve the level if and only if it was not bad, or 18 % and more was made up, or the gaps now counted are still 50 ms long on average; else bad becomes unstable |
| VoiceLevels.MoreGapsCanLiftBad | packages/shared/src/voice-quality.ts:171-172 | an input on which more gaps alone turn bad into unstable |
| VoiceLevels.HeardGapsIsGreatest | packages/shared/src/voice-quality.ts:122-129 | the gaps that count are the greatest number that is at most the gaps and has 480 made-up samples for each |
| VoiceLevels.ConcealedIsGreatest | packages/shared/src/voice-quality.ts:114-116 | speech is 960 samples for each packet, and what counts as made up is the most that is both counted and speech |
| VoiceJudgement.WorseVerdictIsJoin | packages/shared/src/voice-quality.ts:260-266 | on the verdicts that can be charged, the worse of two is an associative, commutative, idempotent join, with the clean verdict as its unit |
| VoiceJudgement.WorstIsGreatest | packages/shared/src/voice-quality.ts:200-203 | blaming a peer again and again leaves the greatest of its charges, and none when there is none |
| VoiceJudgement.SameChargesSameWorst | packages/shared/src/voice-quality.ts:200-203 | the verdict depends only on which charges there are |
| VoiceJudgement.JudgeHeard | packages/shared/src/voice-quality.ts:206-216 | one listener's turn of the first loop: who it heard becomes known, what it heard is judged in order |
| VoiceJudgement.JudgeStreams | packages/shared/src/voice-quality.ts:205-216 | the first loop makes exactly the named peers known and judges every stream in order |
| VoiceJudgement.BlameAll | packages/shared/src/voice-quality.ts:200-203 | folding charges into the verdict map keeps it the worst charge of each peer |
| VoiceJudgement.BlameStreams | packages/shared/src/voice-quality.ts:222-243 | after the second loop the map is the worst of the streams' charges |
| VoiceJudgement.BlameDelays | packages/shared/src/voice-quality.ts:245-255 | one listener's turn of the delay loop adds exactly that listener's delay charges |
| VoiceJudgement.BlameAllDelays | packages/shared/src/voice-quality.ts:245-255 | the delay loop adds every listener's delay charges and nothing else |
| VoiceJudgement.JudgeVoice | packages/shared/src/voice-quality.ts:194-258 | the three loops return, for each named peer, the worst charge made to it |
| VoiceVerdicts.OrderDoesNotMatter | packages/shared/src/voice-quality.ts:194-258 | permuting the reports and each report's heard list gives the same verdict map, as long as reports that share a peer id agree on round trip and uplink loss |
| VoiceVerdicts.DistinctPeersInAnyOrder | packages/shared/src/voice-quality.ts:194-258 | so for distinct peers order never matters |
| VoiceVerdicts.OrderMattersForOnePeerTwice | packages/shared/src/voice-quality.ts:195-195 | with two reports of one peer that differ in uplink loss the last one wins: the speaker's verdict is bad in one order and clean in the other |
| VoiceVerdicts.EveryoneNamed | packages/shared/src/voice-quality.ts:190-209 | the keys are exactly the reporters and the senders they heard |
| VoiceVerdicts.NotGoodIsBlamed | packages/shared/src/voice-quality.ts:222-243 | every judged stream that is not good leaves its sender or its listener with a verdict at least that bad |
| VoiceVerdicts.VerdictTraces | packages/shared/src/voice-quality.ts:222-255 | a verdict's cause names a judged stream of that very level on that side, or a charged delay, which is unstable at most |
| VoiceVerdicts.SilentExactly | packages/shared/src/voice-quality.ts:190-257 | null exactly when no judged stream touches the peer and no long delay is charged to it |
| VoiceVerdicts.DelayBlamesTheLongerHalf | packages/shared/src/voice-quality.ts:178-254 | a delay of 400 ms or more is charged to exactly one side, one that adds at least 180 ms of it; a shorter one to nobody |
| VoiceCounts.JudgedExactly | packages/shared/src/voice-quality.ts:205-216 | a stream is judged exactly when a report lists it with enough speech, at the level and loss its own counts say |
| VoiceCounts.SidesAreCounts | packages/shared/src/voice-quality.ts:218-221 | a side has no vote below two streams that sound, else its vote is whether more than half of them, counted in the reports, are not good |
| VoiceCounts.ChargedExactly | packages/shared/src/voice-quality.ts:222-255 | the charges of all loops are exactly those made by a heard stream or a long delay, told from counts in the reports alone |
| VoiceCounts.VerdictIsWorstMade | packages/shared/src/voice-quality.ts:194-258 | a verdict is itself made, and nothing worse is made to that peer; null exactly when nothing is |
| VoiceCounts.MadeIsFelt | packages/shared/src/voice-quality.ts:200-203 | whatever is charged to a peer leaves it a verdict no better |
| VoiceCounts.MostHearBadly | packages/shared/src/voice-quality.ts:218-240 | of a speaker with n streams that sound, b of them not good, n >= 2 and 2b > n charges it with each of these |
| VoiceCounts.MostHearWell | packages/shared/src/voice-quality.ts:218-240 | with n >= 2 and 2b <= n that speaker is never said to be heard badly |
| VoiceCounts.HearsMostBadly | packages/shared/src/voice-quality.ts:218-242 | of a listener with n streams, b of them not good, n >= 2 and 2b > n charges it with each of these |
| VoiceCounts.HearsMostWell | packages/shared/src/voice-quality.ts:218-242 | otherwise it is never said to hear badly, as long as most listeners hear badly each speaker it hears badly |
| VoiceCounts.UnconfirmedIsTheListeners | packages/shared/src/voice-quality.ts:235-242 | a stream that no majority of its speaker confirms is charged to its listener, unless neither side has a second stream |
| VoiceCounts.BetweenTwo | packages/shared/src/voice-quality.ts:230-234 | between two people the speaker is charged exactly when its uplink lost at least half of what the listener lost |
| CallPeak.PeakOf | apps/admin/src/pages/CallPage.tsx:61-75 | people is the maximum over all moments of the half-open stays containing it, and at is the earliest such moment |
| CallPeak.PeakIsExact | apps/admin/src/pages/CallPage.tsx:68-74 | the highest running count over the sorted moves bounds the count at every moment and is reached first at its move |
| CallPeak.InsideIsOccupancy | apps/admin/src/pages/CallPage.tsx:62-66 | joins minus leaves up to a moment count the stays containing it, zero-length stays included |
| CallPeak.NetIsAfter | apps/admin/src/pages/CallPage.tsx:67-74 | in sorted moves the net count at a moment is the running count after a prefix |
| CallPeak.RestOfMomentRaises | apps/admin/src/pages/CallPage.tsx:67-67 | leaves sort before joins of one moment, so once the count rises it only rises within that moment |
| CallPeak.JoinsFirstOvercount | apps/admin/src/pages/CallPage.tsx:67-67 | with joins first, any two people who only meet at the door would count as two |
| DesktopAudioQueue.FramesConcat | apps/web/public/desktop-audio-source.worklet.js:15-18 | the frames of two joined runs of whole frames are the frames of one and then the other |
| DesktopAudioQueue.FramesAt | apps/web/public/desktop-audio-source.worklet.js:56-61 | frame i of a run of whole frames is its samples from i * channels up to (i + 1) * channels |
| DesktopAudioQueue.DesktopAudioSource.OnSamples | apps/web/public/desktop-audio-source.worklet.js:11-30 | a message appends its whole frames and leaves exactly the last maxFrames of them; pushed equals read, discarded and queued together |
| DesktopAudioQueue.DesktopAudioSource.Trim | apps/web/public/desktop-audio-source.worklet.js:19-29 | trimming ends, leaves exactly maxFrames when there were more, and what is left is the end of what was there |
| DesktopAudioQueue.DesktopAudioSource.DiscardOldest | apps/web/public/desktop-audio-source.worklet.js:20-28 | one turn makes progress even where the head chunk is fully read already |
| DesktopAudioQueue.DesktopAudioSource.KeptIsLast | apps/web/public/desktop-audio-source.worklet.js:19-29 | an end of the samples with fewer frames holds the last of the frames |
| DesktopAudioQueue.DesktopAudioSource.ReadFrame | apps/web/public/desktop-audio-source.worklet.js:54-69 | returns the head frame, or nothing exactly when no frame is queued |
| DesktopAudioQueue.DesktopAudioSource.Process | apps/web/public/desktop-audio-source.worklet.js:33-52 | a block plays the oldest frames across its channels and is silent after them |
| NoiseGate.NoiseGateProcessor.constructor | apps/web/public/audio-gate.worklet.js:18-43 | every clamped option and coefficient; without a threshold the gain starts at one |
| NoiseGate.NoiseGateProcessor.SetThreshold | apps/web/public/audio-gate.worklet.js:45-53 | the new threshold, its closing threshold, and an open gate with full hold when it is zero |
| NoiseGate.NoiseGateProcessor.ProcessInput | apps/web/public/audio-gate.worklet.js:65-92 | a block is the run of the sample step over the input padded with silence |
| NoiseGate.NoiseGateProcessor.Process | apps/web/public/audio-gate.worklet.js:55-93 | the same with an input connected; silence and an unchanged gate without one |
| NoiseGate.StepStaysBounded | apps/web/public/audio-gate.worklet.js:66-89 | one sample keeps the detector non-negative and the gain in its range, and comes out no louder |
| NoiseGate.RunStaysBounded | apps/web/public/audio-gate.worklet.js:65-90 | on every run the gain stays in [floorGain, 1] and no sample comes out louder than it went in |
| NoiseGate.TransparentUntilRaised | apps/web/public/audio-gate.worklet.js:26-53 | built with threshold zero, everything comes out as it went in, through any blocks and messages until a positive threshold arrives |
| NoiseGate.ZeroOpensForGood | apps/web/public/audio-gate.worklet.js:45-53 | from any state a zero threshold opens the gate, and until a positive one it stays open and its gain never falls |
| NoiseGate.SetKeepsValid | apps/web/public/audio-gate.worklet.js:45-53 | a new threshold leaves gain and settings in their ranges |
| NoiseGate.OffRun | apps/web/public/audio-gate.worklet.js:65-90 | over samples a gate that is off never shuts and turns nothing down; once its gain is one it is transparent |
| NoiseGate.OpenRunExactly | apps/web/public/audio-gate.worklet.js:73-82 | the gate shuts exactly on value holdSamples + 1 below the closing threshold since the last value at or above the threshold, told from the detector's values alone |
| NoiseGate.RunFollowsDetector | apps/web/public/audio-gate.worklet.js:65-90 | over a run the flag and the hold depend on the detector's values only |
| NoiseGate.OpensAndClosesExactly | apps/web/public/audio-gate.worklet.js:65-90 | after any samples the gate is open exactly when the detector's values say so |
| NoiseGate.OpensOnlyWhenLoud | apps/web/public/audio-gate.worklet.js:73-75 | a shut gate that is open later saw a detector value at or above the threshold |
| NoiseGate.RunPasses | apps/web/public/audio-gate.worklet.js:65-90 | a run passes from gate to gate, one sample step after the other |
| NoiseGate.DetectorCloses | apps/web/public/audio-gate.worklet.js:66-71 | under a sound of one level the distance to it shrinks by the attack share with each sample from below and by the release share from above |
| NoiseGate.GainCloses | apps/web/public/audio-gate.worklet.js:84-88 | while open the gain closes in on one by the attack share of what is left, while shut on the floor by the release share |
| NoiseGate.OutputIsScaled | apps/web/public/audio-gate.worklet.js:89-89 | every sample comes out times the gain there is after it |
| SilenceFloor.SilenceFloorProcessor.PeakOf | apps/web/public/audio-gate.worklet.js:134-138 | the peak is the greatest level in the block |
| SilenceFloor.SilenceFloorProcessor.Process | apps/web/public/audio-gate.worklet.js:124-149 | without an input silence and an unchanged hold; with one, as ProcessInput |
| SilenceFloor.SilenceFloorProcessor.ProcessInput | apps/web/public/audio-gate.worklet.js:134-148 | a block is silenced exactly once the quiet since the last audible one, itself included, reaches the hold; else it passes untouched |
| SilenceFloor.SilenceFloorProcessor.ProcessAudible | apps/web/public/audio-gate.worklet.js:105-109 | an audible block passes untouched exactly when the hold is not zero |
| SpeakingDetector.ShortestIsUnique | apps/web/public/audio-gate.worklet.js:221-224 | there is only one shortest window, so the kept one is it |
| SpeakingDetector.SumsSplit | apps/web/public/audio-gate.worklet.js:217-224 | the sums over a history split at any block |
| SpeakingDetector.SuffixSmaller | apps/web/public/audio-gate.worklet.js:221-224 | a later start never gives more samples |
| SpeakingDetector.SpeakingDetectorProcessor.EnergyOf | apps/web/public/audio-gate.worklet.js:209-215 | a block's energy is the sum of its samples' squares |
| SpeakingDetector.SpeakingDetectorProcessor.Window | apps/web/public/audio-gate.worklet.js:217-224 | the kept window is the shortest end of the history that is long enough, its sums equal recomputed ones, and the queue is never emptied |
| SpeakingDetector.SpeakingDetectorProcessor.Answer | apps/web/public/audio-gate.worklet.js:227-239 | messages alternate starting with true; false comes exactly when the quiet reaches the hold |
| SpeakingDetector.AlternatingAt | apps/web/public/audio-gate.worklet.js:229-238 | in an alternating history every other message is true, the first included |
| SpeakingDetector.ReachesExactly | apps/web/public/audio-gate.worklet.js:225-227 | a window reaches the threshold exactly when its root mean square, the r >= 0 with r * r * count equal to the sum of squares, does |
| SpeakingDetector.QuietIsNotLoud | apps/web/public/audio-gate.worklet.js:225-227 | a window whose samples are all below a positive threshold does not reach it, silence included |
| SpeakingDetector.LoudIsLoud | apps/web/public/audio-gate.worklet.js:225-227 | a window with a sample whose samples all reach the threshold reaches it |
| SpeakingDetector.SpeakingDetectorProcessor.LoudExactly | apps/web/public/audio-gate.worklet.js:217-227 | the same of the kept window and the very inputs it was read from |
| SpeakingDetector.SpeakingDetectorProcessor.Process | apps/web/public/audio-gate.worklet.js:206-239 | one block: history, quiet, answer and messages after it, all invariants kept |
| BoundedMap.BoundedMap.Set | apps/api/src/lib/bounded-map.ts:15-25 | the key moves last and the entries set longest ago are dropped, and handed over in that order, until the map fits |
| BoundedMap.BoundedMap.DeleteRefused | apps/api/src/lib/rate-limit.ts:47-49 | deleting while looping leaves exactly the entries that are to stay, in order |
| BoundedMap.BoundedMap.Delete | apps/api/src/lib/rate-limit.ts:118-120 | exactly the key's entry is gone |
| BoundedMap.BoundedMap.Update | apps/api/src/lib/rate-limit.ts:59-59 | counting on an entry changes its value where it is |
| BoundedMap.PutIsBounded | apps/api/src/lib/bounded-map.ts:15-25 | never more than maxKeys; the key just set is held; nothing else is dropped while there is room |
| BoundedMap.FindIsMember | apps/api/src/lib/bounded-map.ts:5-26 | looking a key up finds exactly the entry that is held under it |
| Windows.FollowsPruned | apps/api/src/lib/rate-limit.ts:46-51 | forgetting entries whose windows are over leaves the entries standing for the unbounded counter |
| Windows.FollowsCounted | apps/api/src/lib/rate-limit.ts:59-61 | counting on inside a window keeps that relation |
| Windows.FollowsOpened | apps/api/src/lib/rate-limit.ts:54-57 | opening a window keeps it while every live key has room, whatever is evicted |
| Windows.FollowsNewest | apps/api/src/lib/bounded-map.ts:18-23 | entries stay ordered by when their windows opened, so eviction takes only ended ones while live keys fit |
| Windows.TooManyLive | apps/api/src/lib/bounded-map.ts:18-23 | an evicted live entry would mean more live keys than fit |
| Windows.RoomIsNeeded | apps/api/src/lib/bounded-map.ts:18-23 | standing for the counter takes an entry for every live key |
| RateLimiter.RateLimiter.Check | apps/api/src/lib/rate-limit.ts:41-62 | the new entries, the prune time and the decision are those of the function Checked |
| RateLimiter.CheckRefines | apps/api/src/lib/rate-limit.ts:41-62 | one call decides as a counter that never forgets, and goes on standing for it |
| RateLimiter.PrunedExactly | apps/api/src/lib/rate-limit.ts:46-51 | when a pruning runs, and that it leaves what is live or ends at this very moment |
| RateLimiter.RunRefines | apps/api/src/lib/rate-limit.ts:29-65 | over every run with at most maxEntries live keys, all decisions are the counter's |
| RateLimiter.AdmittedWithinAllowance | apps/api/src/lib/rate-limit.ts:53-61 | from any state, what a key can still have admitted in a span, by when its window opened |
| RateLimiter.FewerThanTwiceTheLimit | apps/api/src/lib/rate-limit.ts:53-61 | at most 2 * limit - 1 calls of a key in any half-open span of one window, at most limit when the window is one millisecond |
| RateLimiter.MostIsReached | apps/api/src/lib/rate-limit.ts:53-61 | these bounds are reached, for every limit and every window |
| RateLimiter.LimiterAdmits | apps/api/src/lib/rate-limit.ts:29-65 | the limiter itself, from empty, keeps the bound while live keys fit |
| Windows.CeilSecondsIsLeast | apps/api/src/lib/rate-limit.ts:60-60 | the seconds told are the least whole number not shorter than the time left |
| RateLimiter.RetryAfterIsLeast | apps/api/src/lib/rate-limit.ts:53-61 | a refused key is let through again after the seconds it was told, and refused one second before, whatever is tried meanwhile |
| FailureLimiter.FailureLimiter.Sweep | apps/api/src/lib/rate-limit.ts:85-91 | what a sweep leaves and when it runs at all |
| FailureLimiter.FailureLimiter.Current | apps/api/src/lib/rate-limit.ts:93-101 | an ended entry is deleted and not found |
| FailureLimiter.FailureLimiter.Status | apps/api/src/lib/rate-limit.ts:103-108 | the decision and the entries after it |
| FailureLimiter.FailureLimiter.RecordFailure | apps/api/src/lib/rate-limit.ts:110-116 | sweep, look up, then count on or open |
| FailureLimiter.FailureLimiter.Reset | apps/api/src/lib/rate-limit.ts:118-120 | exactly the key's entry is gone |
| FailureLimiter.FailureLimiter.Reserve | apps/api/src/lib/rate-limit.ts:125-130 | status first, counted only when allowed |
| FailureLimiter.SweepRefines | apps/api/src/lib/rate-limit.ts:85-91 | a sweep never changes a decision |
| FailureLimiter.SweptExactly | apps/api/src/lib/rate-limit.ts:85-91 | when a sweep runs, and that it leaves exactly the live entries |
| FailureLimiter.StepRefines | apps/api/src/lib/rate-limit.ts:93-130 | each operation decides as the unbounded counter and goes on standing for it |
| FailureLimiter.RunRefines | apps/api/src/lib/rate-limit.ts:71-133 | so does every run in which live keys fit |
| FailureLimiter.RefusedChangesNothing | apps/api/src/lib/rate-limit.ts:125-127 | a refused reservation changes nothing |
| FailureLimiter.GrantsExactly | apps/api/src/lib/rate-limit.ts:110-130 | inside a window, however everything interleaves, each grant and recorded failure is counted once; no more are granted than the limit leaves and only recorded failures make it fewer: with none, exactly as many |
| FailureLimiter.GrantStep | apps/api/src/lib/rate-limit.ts:103-130 | one operation adds to the key's count what it granted or recorded |
| FailureLimiter.WindowGrantsLimit | apps/api/src/lib/rate-limit.ts:110-130 | a window grants limit reservations in all, exactly unless recorded failures take some of it |
| FailureLimiter.LockoutEnds | apps/api/src/lib/rate-limit.ts:103-130 | a locked key is free again exactly from startedAt + windowMs, whatever is tried meanwhile |
| FailureLimiter.RetryAfterIsLeast | apps/api/src/lib/rate-limit.ts:103-108 | a locked key may reserve again after the seconds it was told and not one second before, whatever is tried meanwhile short of a reset |
| FailureLimiter.LimiterGrantsLimit | apps/api/src/lib/rate-limit.ts:71-133 | the limiter itself grants exactly that while live keys fit |
| LoadRounds.StepKeeps | apps/admin/src/load-state.ts:57-127 | every step keeps the invariant of rounds asked, heard and accepted |
| LoadRounds.RunKeeps | apps/admin/src/load-state.ts:57-127 | so does every interleaving |
| LoadRounds.RoundsInOrder | apps/admin/src/load-state.ts:57-138 | each round is asked at most once and in order, accepted rounds strictly increase, and busy means the wanted round was not heard from |
| LoadRounds.PollNeverPilesOn | apps/admin/src/load-state.ts:100-108 | a poll starts only once the round on screen was answered, with only dropped rounds still out |
| LoadRounds.OlderNeverReplacesNewer | apps/admin/src/load-state.ts:80-92 | an answer changes the state exactly when its round is the wanted one, newer than all accepted before |
| LoadRounds.BusyMeansWaiting | apps/admin/src/load-state.ts:94-133 | after a commit a busy section really has a request out for the wanted round |
| LoadRounds.DataIsLastGiven | apps/admin/src/load-state.ts:80-127 | on every run the data is what the last edit, or the last answer with data to the round wanted when it came, gave; none before the first |
| LoadRounds.FailureIsOfLastAnswer | apps/admin/src/load-state.ts:80-92 | the failure is that of the last answer taken, and none when that one succeeded |
| LoadRounds.CommitAsksForWanted | apps/admin/src/load-state.ts:67-97 | a commit wants another round exactly when the inputs changed, and asks for the wanted round unless it was asked for |
| LoadRounds.PollsExactly | apps/admin/src/load-state.ts:100-108 | after a commit a poll asks for the next round exactly when the tab is visible and the section not busy, and else does nothing |
| LoadRounds.ReloadAsksAnew | apps/admin/src/load-state.ts:94-124 | a reload makes the section busy at once and leads to a request of its own at the next commit |
| MigrationGuard.StepKeeps | apps/api/src/lib/migrate.ts:273-342 | every query, failure or death of every process keeps the invariant |
| MigrationGuard.RunKeeps | apps/api/src/lib/migrate.ts:238-343 | so does every interleaving of processes |
| MigrationGuard.RunnersNeverOverlap | apps/api/src/lib/migrate.ts:278-313 | no two processes are in the runner, and one that is holds the lock with the guard running |
| MigrationGuard.LogIsOrderly | apps/api/src/lib/migrate.ts:114-140 | the row is created once, a run begins only on clean, and clean is written only by creation, by the open run, or by clearDirty |
| MigrationGuard.RunKeepsEarned | apps/api/src/lib/migrate.ts:278-343 | every run, lost locks included, keeps what each process has earned by its runner and its second look at the lock |
| MigrationGuard.CompletedIsEarned | apps/api/src/lib/migrate.ts:301-314 | on every run, lost locks included, a run writes clean only after its runner finished and, after that, its lock was found held |
| MigrationGuard.RunnerCompletes | apps/api/src/lib/migrate.ts:301-342 | from the runner, when all its queries succeed, a run ends with its process gone, the lock free, the guard clean and its completion the last entry |
| MigrationGuard.DeploySucceeds | apps/api/src/lib/migrate.ts:274-342 | from an empty database an ordinary deploy is possible and ends so |
| MigrationGuard.CompletesExactly | apps/api/src/lib/migrate.ts:313-332 | on every run, lost locks included, what a process writes after its runner finished is clean exactly when its lock was held at the second look and neither that look nor the write threw or lost its session |
| MigrationGuard.ThrowMarksDirtyExactly | apps/api/src/lib/migrate.ts:298-340 | whatever throws once the guard says running makes the next write dirty, and before that leaves the guard alone; the lock is given back either way |
| MigrationGuard.LateThrowEnds | apps/api/src/lib/migrate.ts:325-340 | when writing dirty throws the guard stays as it was; when giving the lock back throws it goes with the process |
| MigrationGuard.ClearSucceeds | apps/api/src/lib/migrate.ts:280-288 | clearDirty with the row there and the lock free makes the guard clean and runs nothing |
| MigrationGuard.UncleanIsRefused | apps/api/src/lib/migrate.ts:289-289 | a run on a running or dirty guard is turned away and changes nothing |
| MigrationGuard.ServesExactly | apps/api/src/lib/migrate.ts:215-231 | a build starts exactly when the last entry is a creation, a completion or a clearing, and the applied names are its own one for one |
| MigrationGuard.UnsettledStaysUnclean | apps/api/src/lib/migrate.ts:325-332 | a run neither completed nor cleared leaves the guard running or dirty |
| MigrationGuard.BeginsAreSettled | apps/api/src/lib/migrate.ts:281-314 | between two runs that begin, the earlier completed or an operator cleared |
| MigrationGuard.DyingInterrupts | apps/api/src/lib/migrate.ts:293-314 | dying anywhere between marking the guard and settling it interrupts the run |
| MigrationGuard.InterruptedUntilCleared | apps/api/src/lib/migrate.ts:133-236 | from then on nobody reaches the runner and no readiness check passes until clearDirty |
| MigrationGuard.LossIsHarmlessExactly | apps/api/src/lib/migrate.ts:279-314 | losing the lock in a live session lets no runners overlap, absent clears and further losses, if and only if the loser can no longer take the guard for clean |
| MigrationGuard.StrayForEver | apps/api/src/lib/migrate.ts:279-314 | from a harmless loss on, no two runners overlap in any quiet run |
| MigrationGuard.LostLockLetsTwoRun | apps/api/src/lib/migrate.ts:279-313 | from an empty database, a run that loses one lock and ends with two processes in the runner |
| MigrationGuard.PartsIdentify | apps/api/src/lib/migrate.ts:160-166 | two lock values have the same parts exactly when they are the same 64-bit number |
| MigrationGuard.PartsRecover | apps/api/src/lib/migrate.ts:160-166 | a signed 64-bit lock value is recovered from its parts |
| LeaseRuntime.BackoffGrows | apps/api/src/platform/lease-runtime.ts:62-76 | without jitter the wait never shrinks with more failures and lies between 1 and max(1, maxBackoffMs) |
| LeaseRuntime.BackoffDoubles | apps/api/src/platform/lease-runtime.ts:62-76 | the first wait is the base and each of the next twenty is twice the one before, as far as the bound allows |
| LeaseRuntime.StepKeeps | apps/api/src/platform/lease-runtime.ts:153-262 | every resumed await of the loop, the renewal loop and stop keeps the invariant |
| LeaseRuntime.WaitsClimb | apps/api/src/platform/lease-runtime.ts:206-241 | on every run, waits since the last held lease are nondecreasing and bounded |
| LeaseRuntime.EventsInOrder | apps/api/src/platform/lease-runtime.ts:153-202 | held, renewal over, not ready, released: each once for each lease and in this order, ready heartbeats between the first two |
| LeaseRuntime.OneLeaseAtATime | apps/api/src/platform/lease-runtime.ts:205-242 | a later lease is held only after the earlier one was released |
| LeaseRuntime.ReleasedOnceInOrder | apps/api/src/platform/lease-runtime.ts:183-202 | a release happens once, after the renewal loop ended and after the single not-ready heartbeat; every ready one came before |
| LeaseRuntime.EveryLeaseReleased | apps/api/src/platform/lease-runtime.ts:183-202 | on every run each lease that is no longer held was released |
| LeaseRuntime.RefusedForEver | apps/api/src/platform/lease-runtime.ts:78-94 | a guard that once refused refuses at every later moment of every run |
| LeaseRuntime.NoWorkWithoutRenewal | apps/api/src/platform/lease-runtime.ts:160-181 | on every run, while the loop works and the renewal loop is over, the guard in hand is not owned |
| LeaseRuntime.FailedRenewalEndsOwnership | apps/api/src/platform/lease-runtime.ts:175-180 | after a failed renewal no later moment of any run owns that guard |
| LeaseRuntime.HealthyLease | apps/api/src/platform/lease-runtime.ts:153-204 | a granted lease can be held, renewed n times, worked to its end and released, with just those events in that order and no failures counted |
| LeaseRuntime.LostLease | apps/api/src/platform/lease-runtime.ts:175-241 | a lease whose renewal failed is released all the same, and the next attempt waits as after a failure |
| LeaseRuntime.MissesWait | apps/api/src/platform/lease-runtime.ts:218-226 | n misses in a row wait as their number of failures says, one after the other |
| LeaseRuntime.ErrorWaits | apps/api/src/platform/lease-runtime.ts:229-241 | an attempt that throws counts once, waits as long as the count now says, and the loop asks again |
| LeaseRuntime.StopTellsTheWork | apps/api/src/platform/lease-runtime.ts:155-263 | stop marks the guard in hand lost and aborts its signal, and the loop goes on to the end of the work |
| LeaseRuntime.RenewsOnlyOwned | apps/api/src/platform/lease-runtime.ts:163-165 | a renewal is asked for exactly while the guard in hand owns the lease; a refusing guard ends the renewal loop |
| LeaseRuntime.StopWindsDown | apps/api/src/platform/lease-runtime.ts:205-263 | once stopped each turn of the loop, however its await ends, brings it closer to its end, and nothing else moves it |
| LeaseRuntime.NeverStuck | apps/api/src/platform/lease-runtime.ts:153-241 | a loop that has not ended can always go on, if need be once its renewal loop is over |
| LeaseRuntime.StartsOnce | apps/api/src/platform/lease-runtime.ts:251-257 | starting a running loop changes nothing |
| LeaseRuntime.EndedForEver | apps/api/src/platform/lease-runtime.ts:205-262 | once ended, nothing is owned and nothing is acquired again |
| LeaseRuntime.StopEnds | apps/api/src/platform/lease-runtime.ts:258-262 | stop ends a runtime that has no grant on its way |
| LeaseRuntime.StopEndsOwnershipExactly | apps/api/src/platform/lease-runtime.ts:208-262 | stop ends all ownership for ever if and only if it does not fall between a grant and holdLease |
| LeaseRuntime.GrantIsReachable | apps/api/src/platform/lease-runtime.ts:207-218 | three steps from the start lead to that gap |
| Ipv6Text.QuadStart | apps/api/src/lib/ip-key.ts:22-22 | the leftmost dotted quad that reaches the end of the text |
| Ipv6Text.FirstDouble | apps/api/src/lib/ip-key.ts:29-29 | the first double colon |
| Ipv6Text.BlocksOfRendered | apps/api/src/lib/ip-key.ts:17-35 | every text form of section 2.2 of RFC 4291 (full, with :: anywhere, with a dotted IPv4 tail, in any case) is read as its eight blocks |
| Ipv6Text.MeaningAt | apps/api/src/lib/ip-key.ts:17-35 | which group, zero or half of the dotted tail each of the eight blocks comes from |
| Ipv6Text.GroupMeans | apps/api/src/lib/ip-key.ts:33-33 | a group means its number in any case and with any zeros before it |
| Ipv6Text.AddressHasFullForm | apps/api/src/lib/ip-key.ts:17-35 | any eight blocks are the meaning of the form that writes them all |
| Ipv6Text.AddressHasShortForm | apps/api/src/lib/ip-key.ts:29-34 | and of every form that writes a run of their zeros as a double colon |
| Ipv6Text.AddressHasQuad | apps/api/src/lib/ip-key.ts:22-25 | and of the forms whose last two blocks are four decimal numbers below 256 |
| Ipv6Text.FilledIsEight | apps/api/src/lib/ip-key.ts:33-34 | around a double colon there is an address exactly when at most eight blocks are written |
| Ipv6Text.DecimalIsNumeral | apps/api/src/lib/ip-key.ts:22-22 | the parts of a dotted quad are exactly decimal numerals |
| Ipv6Text.PrefixIsMiddle | apps/api/src/lib/ip-key.ts:26-27 | dropping the colon before a dotted tail, unless it ends a double colon, leaves exactly the groups before it |
| IpKey.Ipv6Blocks | apps/api/src/lib/ip-key.ts:18-35 | the source's step-by-step reading gives the blocks of every form that is written as this text |
| IpKey.PrefixTextsDiffer | apps/api/src/lib/ip-key.ts:42-43 | two network texts are equal exactly when the first four blocks are |
| IpKey.NetworkOfForm | apps/api/src/lib/ip-key.ts:37-44 | an IPv6 text that is not taken as mapped, with or without a zone, has the network text of its blocks |
| IpKey.MappedExactly | apps/api/src/lib/ip-key.ts:38-40 | a text is taken as mapped exactly when it is ::ffff: in any case and a dotted quad to its end |
| IpKey.SameNetworkExactly | apps/api/src/lib/ip-key.ts:37-44 | two such texts have one network exactly when their first 64 bits agree |
| IpKey.MappedIsIPv4 | apps/api/src/lib/ip-key.ts:38-40 | an IPv4 address behind ::ffff: in any case has itself as its network |
| IpKey.StoredTwiceIsStoredOnce | apps/api/src/lib/ip-key.ts:55-65 | storing what was stored changes nothing |
| IpKey.KeysAreKeys | apps/api/src/lib/ip-key.ts:46-53 | the keying of createIpKey answers with keys, and with nothing for no address |
| IpKey.OneKeyPerNetwork | apps/api/src/lib/ip-key.ts:46-53 | two texts of one /64 have one key; of two networks the hashed texts differ |
| IpKey.AddressIsStoredAsKey | apps/api/src/lib/ip-key.ts:55-65 | what is stored for an address, however written, is its key |
| IpKey.OtherTextIsNotStored | apps/api/src/lib/ip-key.ts:55-65 | a text that is neither address nor key is stored as nothing |
| Base64Url.EncodedIsLetters | apps/api/src/platform/cursor-codec.ts:26-28 | base64url uses its alphabet only and takes four letters for three bytes, rounded up |
| Base64Url.QuartetIsOneNumber | apps/api/src/platform/cursor-codec.ts:26-28 | four letters are, six bits each, the number their three bytes are |
| Base64Url.EncodedInThrees | apps/api/src/platform/cursor-codec.ts:26-28 | the letters of each three bytes stand where the bytes do, with zeros past the end |
| Base64Url.DecodeEncode | apps/api/src/platform/cursor-codec.ts:26-32 | base64url decoding inverts encoding |
| Base64Url.FromUtf8Utf8 | apps/api/src/platform/cursor-codec.ts:26-32 | UTF-8 decoding inverts encoding |
| Base64Url.TextOfBody | apps/api/src/platform/cursor-codec.ts:26-32 | a body carries its text |
| CursorJson.EscapedBytes | apps/api/src/platform/cursor-codec.ts:137-137 | JSON escaping costs at most six bytes for each byte |
| CursorJson.PayloadBytes | apps/api/src/platform/cursor-codec.ts:103-112 | the payload's exact size from the sizes of its parts |
| Text.NumeralLength | apps/api/src/platform/cursor-codec.ts:57-62 | a number has at most k digits exactly when it is below 10^k |
| CursorCodec.TrimmedKeysAre | apps/api/src/platform/cursor-codec.ts:72-88 | the keys are exactly the trimmed, non-blank raw ones |
| CursorCodec.RotationKeepsKey | apps/api/src/platform/cursor-codec.ts:72-88 | a key list with the old signing secret anywhere in it, however padded, still knows it |
| CursorCodec.CommasListKeys | apps/api/src/platform/cursor-codec.ts:72-75 | one comma-separated text and the list of its parts make the same codec |
| CursorCodec.CodecExactly | apps/api/src/platform/cursor-codec.ts:72-88 | a list makes a codec exactly when something in it is more than blanks and each such text is at least 32 bytes once trimmed |
| CursorCodec.FirstSigns | apps/api/src/platform/cursor-codec.ts:77-88 | the first such text is the key that signs |
| CursorCodec.TruncIs | apps/api/src/platform/cursor-codec.ts:103-103 | truncation goes toward zero and leaves less than one |
| CursorCodec.LifetimeIs | apps/api/src/platform/cursor-codec.ts:124-127 | the lifetime is a positive one given, cut to whole milliseconds, else thirty days |
| CursorCodec.CursorShape | apps/api/src/platform/cursor-codec.ts:139-149 | a cursor splits back into its body and its signature |
| CursorCodec.PayloadIsShort | apps/api/src/platform/cursor-codec.ts:90-113 | a payload with a timestamp of 1 to 20 digits takes at most 1607 bytes |
| CursorCodec.EncodedFits | packages/shared/src/messaging-history.ts:22-29 | every cursor for such a timestamp has at most 2187 characters and is an opaque cursor to the client |
| CursorCodec.DecodeSigned | apps/api/src/platform/cursor-codec.ts:142-167 | what decoding makes of any signed payload |
| CursorCodec.DecodesExactly | apps/api/src/platform/cursor-codec.ts:130-167 | decoding an encoded cursor succeeds exactly when question, key, expiry and timestamp allow it, and gives back the normalised tuple |
| CursorCodec.RoundTrip | apps/api/src/platform/cursor-codec.ts:130-167 | under any keys that still hold the signing key, a cursor reads back until exp and not after |
| CursorCodec.SameFieldsReadBack | apps/api/src/platform/cursor-codec.ts:130-167 | on the raw fields: asked again for the purpose and context it was made for, up to blanks around them, a cursor reads back its message until it expires |
| CursorCodec.OtherFieldsRefused | apps/api/src/platform/cursor-codec.ts:145-156 | on the raw fields: asked for another trimmed purpose, or for a trimmed context of another digest, it is refused whatever keys and time |
| CursorCodec.NoQuestionNoCursor | apps/api/src/platform/cursor-codec.ts:48-55 | a purpose or context that is no text, blank or too long is refused both ways |
| CursorCodec.NoMessageNoCursor | apps/api/src/platform/cursor-codec.ts:57-69 | without an identifier of 1 to 160 bytes, or without a time, nothing is encoded |
| CursorCodec.NotPresentedIsRefused | apps/api/src/platform/cursor-codec.ts:142-152 | a text that is too long, or is not two parts of which the second verifies the first, is refused |
| CursorCodec.UnitsCount | apps/api/src/platform/cursor-codec.ts:146-146 | the length that is limited counts one for a character below U+10000 and two for any other |
| CursorCodec.TakenAsTime | apps/api/src/platform/cursor-codec.ts:57-62 | which values are taken as a time, and the digits each is written with |
| CursorCodec.MicrosDecodeExactly | apps/api/src/platform/cursor-codec.ts:57-62 | of the timestamps that encode, exactly the bigints outside 0 to 10^20 - 1 do not decode |
| CursorCodec.BigintReadsBackExactly | apps/api/src/platform/cursor-codec.ts:57-62 | a bigint timestamp encodes always and reads back if and only if it is in that range |
| CursorCodec.NegativeBigintIsLost | apps/api/src/platform/cursor-codec.ts:57-62 | an input that encodes and whose cursor is refused at once by the codec that made it |
| CursorCodec.OtherQuestionRefused | apps/api/src/platform/cursor-codec.ts:156-156 | another purpose or context is refused, absent a digest collision |
| CursorCodec.RetiredKeyRefused | apps/api/src/platform/cursor-codec.ts:151-152 | without the signing key nothing is read, absent an HMAC coincidence |
| CursorCodec.AcceptedWasIssued | apps/api/src/platform/cursor-codec.ts:142-162 | if no signature the outside holds is forged, any text it holds that decodes was issued for this very question, has not expired, and gives the issued tuple |
| CursorCodec.HonestTextsAreUnforged | apps/api/src/platform/cursor-codec.ts:136-152 | issued cursors, and any texts that do not verify, are no forgery |
| CursorCodec.OwnCursorIsAccepted | apps/api/src/platform/cursor-codec.ts:130-167 | a codec's own cursor is no forgery and decodes until it expires, so these hypotheses are met together |
| CursorCodec.LawfulPlatform | apps/api/src/platform/cursor-codec.ts:137-154 | some platform meets everything assumed of digests and JSON.parse |
| CursorText.EscapesDiffer | apps/api/src/platform/cursor-codec.ts:137-137 | JSON's escapes are a prefix code |
| CursorText.EscapedEnds | apps/api/src/platform/cursor-codec.ts:137-137 | a quoted string ends at its closing quote, whatever follows |
| CursorText.PayloadTextsDiffer | apps/api/src/platform/cursor-codec.ts:103-137 | two payloads with one JSON text are one payload |
| LeadingZeros.HasLeadingZeroBits | apps/api/src/lib/pow.ts:9-20 | for bits up to 8n, true exactly when the big-endian value of the n bytes is below 2^(8n - bits); past them, as the code's missing bytes decide |
| LeadingZeros.WholeBytes | apps/api/src/lib/pow.ts:13-15 | k leading zero bytes are a number below 256^(n - k) |
| LeadingZeros.PartByteStart | apps/api/src/lib/pow.ts:17-19 | after whole zero bytes the next byte alone decides |
| LeadingZeros.MaskTest | apps/api/src/lib/pow.ts:18-19 | the mask leaves nothing exactly of a byte below 2^(8 - r) |
| LeadingZeros.FirstBitsZero | apps/api/src/lib/pow.ts:17-19 | the first r bits of a byte are zero exactly when it is below 2^(8 - r) |
| ProofOfWork.ProofOfWork.Prune | apps/api/src/lib/pow.ts:67-71 | exactly the marks whose moment has come are gone |
| ProofOfWork.ProofOfWork.Verify | apps/api/src/lib/pow.ts:80-114 | the spent marks and the verdict after a call, for every kind of proof |
| ProofOfWork.IssuedReadsBack | apps/api/src/lib/pow.ts:22-78 | a challenge reads back as issued exactly for difficulties up to 32 |
| ProofOfWork.ReadExactly | apps/api/src/lib/pow.ts:22-39 | which written challenges are read: ids of 16 to 64 and signatures of 32 to 96 base64url letters, a positive time, a difficulty up to 32 |
| ProofOfWork.DigestsAreWords | apps/api/src/lib/pow.ts:31-34 | 16 random bytes in base64url are such an id, a 32-byte digest such a signature |
| ProofOfWork.IssuedIsAccepted | apps/api/src/lib/pow.ts:80-114 | an unspent challenge is accepted exactly when it is in time and worked, and is then marked |
| ProofOfWork.AcceptedExactly | apps/api/src/lib/pow.ts:80-114 | a proof is accepted exactly when its challenge carries the signature of its own id, time and difficulty for this client and this difficulty, in time, unmarked and worked |
| ProofOfWork.OffExactly | apps/api/src/lib/pow.ts:57-81 | exactly without a difficulty nothing is issued and a missing proof is let through |
| ProofOfWork.NonceIsNumeral | apps/api/src/lib/pow.ts:41-45 | a nonce text is taken exactly when it is the numeral of a number below 10^16, and a number as its numeral |
| ProofOfWork.MarkStays | apps/api/src/lib/pow.ts:67-112 | a mark outlives every pruning before its moment, over any run |
| ProofOfWork.SpentIdRests | apps/api/src/lib/pow.ts:67-114 | over any run, once an id was accepted no challenge with it is accepted for ttlMs, whatever issue time it carries |
| ProofOfWork.AcceptedTwiceOnlyAtTheEdges | apps/api/src/lib/pow.ts:67-114 | over any run, two acceptances of one challenge, that is of one id with one issue time, fall at its issue and at the last millisecond of its life |
| ProofOfWork.NeverAgainAfterIssue | apps/api/src/lib/pow.ts:67-114 | accepted strictly after its issue, a challenge is never accepted again |
| ProofOfWork.AcceptedAgainExactly | apps/api/src/lib/pow.ts:67-112 | repeated at once, a proof is accepted again if and only if at those two edges |
| ServiceCache.ServiceRegistry.Get | apps/api/src/app/service-registry.ts:182-188 | the stand-in, else the cached value, else a new build that is kept unless it answered null or threw; whatever is returned is a stand-in or was built since the last drop |
| ServiceCache.ServiceRegistry.TakeParts | apps/api/src/app/service-registry.ts:240-404 | a build takes each used entry's stand-in, cached value or null, in order, until one throws |
| ServiceCache.ServiceRegistry.Build | apps/api/src/app/service-registry.ts:178-187 | a new service stands on the installed pool and on parts of this epoch |
| ServiceCache.ServiceRegistry.PooledGet | apps/api/src/app/service-registry.ts:208-215 | null without a pool unless a test set one |
| ServiceCache.ServiceRegistry.InvitationStore | apps/api/src/app/service-registry.ts:517-518 | the friend store while invitations can expire: the fake decides, else the pool |
| ServiceCache.ServiceRegistry.DropBuilt | apps/api/src/app/service-registry.ts:217-219 | nothing stays cached and a new epoch starts |
| ServiceCache.ServiceRegistry.Connect | apps/api/src/app/service-registry.ts:439-444 | the new pool, with nothing cached |
| ServiceCache.ServiceRegistry.Close | apps/api/src/app/service-registry.ts:447-450 | no pool, nothing cached, and the old pool to end |
| ServiceCache.ServiceRegistry.ApplyOverrides | apps/api/src/app/service-registry.ts:416-433 | which stand-ins stay and which are lost, who decides on expiring invitations, whether the room store changed, and nothing cached |
| ServiceCache.ServiceRegistry.ReturnedIsCurrent | apps/api/src/app/service-registry.ts:171-219 | a value taken in this epoch, and everything in it however deep, stands on this pool and is no older than the epoch |
| ServiceCache.AllCurrent | apps/api/src/app/service-registry.ts:171-219 | nothing an epoch built holds anything from before it |
| ServiceCache.CachedAppend | apps/api/src/app/service-registry.ts:182-188 | what is cached is exactly what successful builds answered |
| ServiceCache.BuiltAtMostOnce | apps/api/src/app/service-registry.ts:173-188 | no two builds of an entry succeed in one epoch |
| Text.SplitJoin | apps/api/src/platform/cursor-codec.ts:139-148 | splitting gives back the parts that were joined |
| Text.ParseIntOfNumeral | apps/api/src/lib/pow.ts:29-30 | parsing gives back the number that was written |
| Text.ParseIntReads | apps/api/src/lib/pow.ts:29-30 | blanks, a sign, digits and anything that starts with no digit parse as the signed number of the digits |
| Text.ParseIntRefuses | apps/api/src/lib/pow.ts:29-30 | blanks and a sign without a digit after them are no number |
| Text.TrimIsIdempotent | apps/api/src/platform/cursor-codec.ts:48-55 | a trimmed text stays as it is when trimmed again |
| Text.TrimTakesBlanks | apps/api/src/platform/cursor-codec.ts:50-50 | trimming takes off blanks at either end and leaves none there |
| Text.CanonicalIsNumeral | apps/api/src/lib/pow.ts:43-43 | digits without a needless zero are the numeral of the number they stand for |

## Left out

- PostgreSQL, sockets, HTTP, push and file storage: only the atomic steps the protocols see are modelled (lock,
  guard row, acquire, renew, answer).
- React and Vue rendering, admin pages and labels, apart from `peakOf` and the request rounds.
- The `noLock` path of `runMigrations`, `getClientIp`, and all logging.
- A migration query that took effect on the server although its answer was lost: taking effect and answering are
  one step, and a process may die or fail right after it.
- The library sort under `peakOf` is modelled as an insertion sort with the same comparison.
- The speaking detector's level reports, and messages a processor ignores.
- JavaScript numbers beyond the exactly representable integers, and number texts of `Number.parseInt` with other
  prefixes than digits and a sign.
- Error messages: each refusal of the cursor codec is one error, as its code and status are.
- CursorCodec.DecodeSigned: a body that carries a valid signature but is not base64url of UTF-8 is refused in the model, where
  node would repair the text first; the encoder never makes one.
- ProofOfWork.NeverAgainAfterIssue: a challenge is an id with its issue time, both of which the signature covers.
  Were one id drawn for two challenges, the later of them could be accepted once the mark of the earlier has ended;
  `ProofOfWork.SpentIdRests` is what holds for an id alone.
- MigrationGuard.LossIsHarmlessExactly: is about losses without a `clearDirty` or another loss afterwards; an operator
  who clears the guard while a run without its lock is at work lets a second run begin.
- ProofOfWork.IssuedReadsBack: the random id and the clock are parameters of the lemma.
- ServiceCache.ServiceRegistry.Get: every built service is taken to stand on the pool, including the few that ignore
  it.
- ServiceCache.ServiceRegistry.TakeParts: the entries a build uses are a parameter, numbered in the order of declaration, and each uses only
  earlier ones; services that are looked up later, inside a callback, are ordinary calls of `Get`.
- The registry's closures each hold their own value and stand-in; the model holds them side by side in two sequences
  of the one registry object.
- The limiters' `entries` as seen by their tests, and the default clocks.
- The emoji corpus, `media-budget.ts`, `network-quality.ts`, `format.ts` and the field normalisers: finite tables
  and single checks.
- Migration files, wiring modules, configuration readers and schema checks.
- Address allow-listing and secret redaction.
