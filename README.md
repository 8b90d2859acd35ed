# FM synthesiser voice engine, in Dafny

This project models the polyphonic FM voice engine of two small MIDI
synthesiser programs. `fms2.py` has a piano-like timbre and a 32-voice ceiling.
`fms.py` has a brighter timbre and no ceiling. Both have the same structure:

- **`FMVoice`** is one sounding note. It has a carrier/modulator pair and a
  four-stage ADSR envelope (attack, decay, sustain, release) that advances one
  sample at a time inside `generate`.
- **`note_off`** captures the current level and enters release.
- **`is_dead`** reports that the release has reached zero.
- **`MidiFMPlayer`** holds the list of live voices. The list is shared by the
  MIDI playback loop (`play_midi`) and the audio callback (`audio_callback`),
  and each of them changes it only while holding a lock.
- On note-on the playback loop appends a voice. Under a ceiling that is full,
  it releases the oldest voice and drops the new note instead.
- On note-off it releases every voice whose frequency is within 0.001 Hz of
  the note. At the end of playback it releases all voices.
- For each block of frames, the audio callback has every voice generate its
  samples, sums them, copies the sum to both stereo channels, and keeps only
  the voices that are not dead.

The model has five modules:

- `Envelope` (envelope.dfy) holds the envelope as a pure state machine:
  - `Step` is one iteration of the per-sample loop, `Run` is `n` iterations,
    and `Trace` is the envelope array that `generate` fills.
  - The invariant `Inv` holds of every reachable envelope. Its lemmas cover
    monotonicity, the absorbing release stage, the dead fixed point, and
    timing: each ramp completes within its configured duration.
  - A `Profile` holds the constants that tell the two programs apart.
- `Voice` (voice.dfy) holds the class `FMVoice`.
  - Its fields are the envelope fields of the original, updated in place by
    the methods `Generate`, `AdvanceOneSample` and `NoteOff`.
  - Each method is proved against `Envelope.Step`/`Run`/`NoteOff`.
  - `Block` is the specification of one `generate` call's output.
- `VoicePool` (pool.dfy) holds the voice list as a value.
  - There is one function per locked region: `NoteOn`, `ReleaseMatching`,
    `ReleaseAll`, and `Render`, which is advance-then-reap. `Mix` is the
    summed block.
  - `Dispatch`, `Replay` and `Session` are the MIDI event handling.
    `Schedule` interleaves messages with audio callbacks in any order.
  - Its lemmas cover the polyphony ceiling, validity, order preservation of
    the reap, and the sum and bound of the mix.
  - Consecutive callbacks compose: two blocks leave the list one block of
    their combined length would. So callbacks totalling release_time seconds
    empty the list after the final release, however the frames are split.
  - The ceiling and the envelope invariants hold under every interleaving of
    messages and callbacks.
- `Player` (player.dfy) holds the class `MidiFMPlayer`.
  - Its field `voices: seq<FMVoice>` is a sequence value. The callback
    replaces it with the survivors, as the original does. The note-on region's
    in-place `append` is written as a reassignment with the new voice added at
    the end. The voice objects themselves are mutated in place.
  - Every locked region is a method whose postcondition ties the new list to
    the `VoicePool` function of the old one.
  - The method also states which objects survive, with no aliasing between
    them.
- `Profiles` (profiles.dfy) instantiates the engine for the two programs:
  - `Piano` is `fms2.py`: index 7 + 4v, sustain 0.4, release 0.15 s, at most
    32 voices.
  - `Bright` is `fms.py`: index 4 + 3v, sustain 0.6, release 0.2 s, no
    ceiling.
  - It proves the concrete deadlines, the 32-voice bound, and the number of
    512-frame callbacks that empty the list after the final release.

Some inputs are treated as opaque:

- The carrier waveform (the sine of the phase-modulated oscillator) is an
  input sequence per voice and per block.
- The MIDI note-to-frequency conversion is a function parameter.

So the model states how the engine shapes and sums those signals over exact
reals. It also states what happens to the voice list under each message and
callback, and under any order of them. It does not model timing.

## Model

| member | source | states |
|---|---|---|
| Envelope.Step | fms2.py:43-59 | one iteration of the per-sample loop moves the stage forward by at most one place, never touches the captured release level, never revives a dead envelope, and kills one only at level 0 in release |
| Envelope.NoteOff | fms2.py:71-74 | note_off always leaves the envelope in release with its level and dead flag unchanged, so the note fades from where it was instead of stopping |
| Envelope.Run | fms2.py:42-60 | n iterations of the per-sample loop; an envelope that is dead stays dead |
| Envelope.Trace | fms2.py:41-60 | the envelope array of a block has one entry per sample, and entry i is the level after i+1 steps of the per-sample loop |
| Envelope.InitialInv | fms2.py:31-34 | a new voice starts silent in attack, not dead, and satisfies the envelope invariant |
| Envelope.IncrementsNonNegative | fms2.py:44-56 | the attack increment 1/(attack_time*fs) is positive; the decay and release decrements are non-negative |
| Envelope.StepKeepsInv | fms2.py:42-60 | one sample keeps the level in [0,1], attack below 1, decay at or above sustain, sustain exactly at sustain, release at or below the captured level, dead only at 0 in release |
| Envelope.StepDirection | fms2.py:43-59 | attack strictly raises the level, decay and release never raise it, sustain changes nothing, the stage never moves back, release is entered only by note_off and never left, and dead stays dead |
| Envelope.StepStage | fms2.py:43-59 | one sample moves attack only to decay, decay only to sustain, and leaves sustain and release in place |
| Envelope.NoteOffProperties | fms2.py:71-74 | note_off keeps the invariant and always ends in release; outside release it captures the current level as release start, inside release it is a no-op, so a second call changes nothing |
| Envelope.FirstReleaseSample | fms2.py:55-59 | the first sample after note_off at level L is L - L/(release_time*fs), or 0 and dead when that is not positive |
| Envelope.RunKeepsInv | fms2.py:42-60 | any number of samples keeps the level in [0,1] and the invariant, and never moves the stage back |
| Envelope.RunNeverRegresses | fms2.py:43-59 | from any envelope, sampling never moves the stage back |
| Envelope.RunAdditive | fms2.py:36-60 | two consecutive generate calls of a and b samples leave the envelope where one call of a+b samples would |
| Envelope.ReleaseAbsorbing | fms2.py:55-59 | once in release, no number of samples and no note_off leaves release or recaptures the release level |
| Envelope.DeadIsFixedPoint | fms2.py:55-59 | a dead envelope stays dead at level 0 forever |
| Envelope.NoSpontaneousRelease | fms2.py:43-54 | without note_off, sampling never reaches release or death |
| Envelope.NoteOffTwiceSameTrajectory | fms2.py:71-74 | calling note_off twice produces the same envelope trajectory as calling it once |
| Envelope.RampIsLinear | fms2.py:44 | a constant per-sample increment d applied j times from x gives x + j*d |
| Envelope.AttackLinear | fms2.py:43-47 | while in attack, the level after j samples is the start level plus j attack increments |
| Envelope.AttackEnds | fms2.py:43-47 | attack ends within attack_time*fs samples |
| Envelope.DecayLinear | fms2.py:48-52 | while in decay, the level after j samples is the start level minus j decay decrements, still above sustain |
| Envelope.DecayEnds | fms2.py:48-52 | decay reaches sustain within decay_time*fs samples |
| Envelope.ReleaseLinear | fms2.py:55-59 | while in release and not yet dead, the level falls by the same amount on every sample and stays positive |
| Envelope.ReleaseEnds | fms2.py:55-59 | a released voice is dead at level 0 within release_time*fs samples, whatever level it was released at |
| Envelope.ReachesSustain | fms2.py:43-54 | a held note sits at the sustain level after attack_time*fs + decay_time*fs samples |
| Envelope.SustainHolds | fms2.py:53-54 | sustain holds the envelope unchanged for any number of samples |
| Voice.Block | fms2.py:62 | one generate call returns one sample per carrier sample (its values are stated by Voice.BlockAt and proved equal to Generate's output) |
| Voice.BlockAt | fms2.py:62 | sample i of a block is the carrier sample times the envelope level after i+1 samples times velocity times 0.6 |
| Voice.BlockBounded | fms2.py:62 | with a carrier in [-1,1] every output sample of a voice lies within [-0.6, 0.6] |
| Voice.SampleBounded | fms2.py:62 | one output sample with carrier in [-1,1], level and velocity in [0,1] lies within [-0.6, 0.6] |
| Voice.DeadBlockSilent | fms2.py:55-62 | a dead voice contributes only zeros |
| Voice.FMVoice.constructor | fms2.py:17-34 | velocity is normalised by 127, the modulator frequency is freq*ratio, the modulation index is base + scale*velocity, and the envelope starts in attack at 0, not dead |
| Voice.FMVoice.Generate | fms2.py:36-69 | after generate(n) the envelope has advanced exactly n steps, and the output is the carrier shaped by the levels passed through, times velocity and 0.6 |
| Voice.FMVoice.AdvanceOneSample | fms2.py:43-59 | one loop iteration updates the envelope fields exactly as one step of the envelope state machine |
| Voice.FMVoice.NoteOff | fms2.py:71-74 | the voice's envelope becomes note_off of the old envelope; nothing else changes |
| Voice.FMVoice.IsDead | fms2.py:76-77 | is_dead is true exactly when the envelope is dead, and then it is in release at level 0 |
| VoicePool.NoteOn | fms2.py:95-105 | a note-on adds at most one voice, removes none, and touches no voice but the oldest |
| VoicePool.ReleaseMatching | fms2.py:107-112 | a note-off keeps the list length and every voice's frequency and velocity |
| VoicePool.ReleaseAll | fms2.py:114-116 | the final release keeps the list length and leaves every voice in release |
| VoicePool.Advance | fms2.py:124-125 | every voice of the list generates one block, and none is added or removed |
| VoicePool.Reap | fms2.py:123-128 | the new list is no longer than the old one and holds no dead voice |
| VoicePool.Render | fms2.py:123-128 | after a callback the list is no longer than before and holds no dead voice |
| VoicePool.Mix | fms2.py:121-125 | the summed buffer has one sample per frame (its values are stated by VoicePool.MixIsSum) |
| VoicePool.NoteOnWithinCap | fms2.py:95-105 | a note-on never takes the list past the ceiling |
| VoicePool.NoteOnEffect | fms2.py:95-105 | below the ceiling (always without one) the new voice is appended and nothing else changes; at the ceiling the oldest voice is released and no voice is added |
| VoicePool.NoteOnKeepsValid | fms2.py:95-105 | a note-on keeps every voice's envelope invariant |
| VoicePool.ReleaseMatchingEffect | fms2.py:107-112 | a note-off turns exactly the voices within 0.001 Hz of the note into note_off of their old values (release from the level they had); the list length, order, frequencies and every other voice are unchanged |
| VoicePool.ReleaseMatchingIdempotent | fms2.py:107-112 | a repeated note-off changes nothing more |
| VoicePool.ReleaseAllEffect | fms2.py:114-116 | after the final release every voice is note_off of its old value, so it releases from the level it had; the list length and frequencies are unchanged |
| VoicePool.ReleasedKeepsValid | fms2.py:107-116 | releasing voices keeps every envelope invariant |
| VoicePool.ReapConcat | fms2.py:123-128 | reaping a concatenation reaps each part, so the survivors keep their relative order |
| VoicePool.ReapKeepsExactlyLive | fms2.py:126-127 | the new list holds exactly the voices that are not dead, and no more of them than the old list |
| VoicePool.ReapNoneDead | fms2.py:126-127 | when no voice is dead, the new list equals the old one |
| VoicePool.ReapKeepsValid | fms2.py:126-127 | the survivors keep their envelope invariants |
| VoicePool.RenderProperties | fms2.py:123-128 | a block keeps the list within the ceiling, keeps every invariant, and leaves no dead voice in the list |
| VoicePool.DrainEmpties | fms2.py:120-128 | when every voice is releasing, one block of release_time seconds empties the list |
| VoicePool.AdvanceConcat | fms2.py:124-125 | advancing a list advances each of its parts independently |
| VoicePool.AdvanceAdditive | fms2.py:124-125 | two consecutive blocks of a and b frames advance every voice as one block of a+b frames |
| VoicePool.ReapAdvanceOne | fms2.py:125-127 | a voice that is dead before a block is dead after it, so dropping it before or after the block is the same |
| VoicePool.ReapBeforeAdvance | fms2.py:123-128 | dropping the dead before a block and then again after it leaves the same list as dropping them only after it |
| VoicePool.RenderAdditive | fms2.py:120-128 | two consecutive audio callbacks of a and b frames leave the list one callback of a+b frames would |
| VoicePool.RenderBlocks | fms2.py:120-128 | consecutive audio callbacks never lengthen the list |
| VoicePool.TotalOfEqual | fms2.py:10 | k callbacks of n frames each span k*n frames |
| VoicePool.RenderBlocksIsOneBlock | fms2.py:120-128 | any non-empty run of callbacks leaves the list one callback of their total length would |
| VoicePool.DrainInBlocks | fms2.py:114-128 | when every voice is releasing, callbacks totalling release_time seconds empty the list, however the frames are split into blocks |
| VoicePool.MixOfDeadIsSilence | fms2.py:121-125 | mixing only dead voices yields silence |
| VoicePool.MixIsSum | fms2.py:121-125 | every mixed sample is the sum over the voices of carrier times level times velocity times 0.6 at that index |
| VoicePool.MixBounded | fms2.py:121-125 | with k voices the mix never leaves [-0.6k, 0.6k] |
| VoicePool.Dispatch | fms2.py:91-112 | one MIDI message adds at most one voice and removes none; only a note-on with positive velocity can add one |
| VoicePool.Replay | fms2.py:87-112 | handling messages in order never removes a voice and adds at most one per message |
| VoicePool.Session | fms2.py:86-116 | a whole playback, messages then the final release, removes no voice, adds at most one per message, and leaves every voice releasing |
| VoicePool.DispatchKeeps | fms2.py:91-112 | handling one MIDI message keeps the ceiling and every envelope invariant |
| VoicePool.ReplayWithinCap | fms2.py:87-112 | however many messages arrive, the list stays within the ceiling and valid |
| VoicePool.UncappedReplayLength | fms.py:91-95 | without a ceiling, each note-on with positive velocity adds exactly one voice and handling messages never removes one |
| VoicePool.NoteOnCountConcat | fms.py:91 | the count of note-ons in two message runs is the sum of their counts |
| VoicePool.SessionEnds | fms2.py:86-130 | at the end of playback every voice is releasing, valid and within the ceiling, and audio callbacks totalling release_time seconds afterwards empty the list |
| VoicePool.Handle | fms2.py:91-128 | a callback never lengthens the list; a message lengthens it by at most one |
| VoicePool.ScheduleKeeps | fms2.py:86-139 | under every interleaving of messages and audio callbacks the list stays within the ceiling and every envelope stays valid |
| VoicePool.ScheduleGrowth | fms2.py:86-139 | under every interleaving the list holds at most its initial voices plus the note-ons handled so far |
| Player.KeepFirst | fms2.py:123-127 | the first k voices yield at most k survivors, and all k when none of them is dead |
| Player.Keep | fms2.py:123-128 | the callback's new list is no longer than the old one and is the old list itself when no voice died |
| Player.KeepViews | fms2.py:123-128 | the objects kept by the callback are exactly the live voices in order |
| Player.KeepSubset | fms2.py:123-128 | the kept objects are distinct members of the old list and no more numerous |
| Player.KeepValid | fms2.py:123-128 | the kept list is valid and its values are the reaped values |
| Player.AllGenerated | fms2.py:124-125 | once every voice has generated, the list's values are the advanced values |
| Player.GenerateEach | fms2.py:121-127 | every voice generates one block in list order; the buffer is the mix of the old values, the voices advance by the block length, and the survivors are collected in order |
| Player.GenerateStep | fms2.py:124-127 | one iteration of the callback loop advances voice i only, adds its block to the buffer, and appends it to the survivors if it is not dead |
| Player.GenerateInto | fms2.py:125-127 | one voice's block is added into the buffer, and the result reports whether the voice still lives |
| Player.Accumulate | fms2.py:125 | the buffer becomes the element-wise sum of itself and the block |
| Player.WriteStereo | fms2.py:129-130 | both output channels receive the mono buffer |
| Player.MidiFMPlayer.constructor | fms2.py:80-84 | a new player has an empty voice list |
| Player.MidiFMPlayer.NoteOn | fms2.py:91-105 | the locked note-on region changes the list as VoicePool.NoteOn does, appending a fresh voice object or leaving the object list unchanged |
| Player.MidiFMPlayer.ReleaseMatching | fms2.py:107-112 | the locked note-off region changes the values as VoicePool.ReleaseMatching does and keeps the same objects |
| Player.MidiFMPlayer.ReleaseAll | fms2.py:114-116 | the final release changes the values as VoicePool.ReleaseAll does and keeps the same objects |
| Player.MidiFMPlayer.MixAndReap | fms2.py:121-128 | the locked callback region returns the mix of the old values, and the new list holds the surviving objects whose values are Render of the old ones |
| Player.MidiFMPlayer.AudioCallback | fms2.py:120-130 | both channels of the device buffer carry the mix, and the list is the rendered one |
| Player.MidiFMPlayer.HandleMessage | fms2.py:91-112 | one MIDI message changes the list as VoicePool.Dispatch does; every object in it is old or fresh |
| Player.MidiFMPlayer.PlayMidi | fms2.py:86-116 | the playback loop leaves the list as VoicePool.Session: every message in order, then the final release |
| Profiles.ProfilesValid | fms2.py:24-29 | both programs' constants satisfy the engine's assumptions; the piano program is capped at 32 voices, the bright one uncapped |
| Profiles.PianoHeldNote | fms2.py:26-28 | a held piano note has left attack from sample 221 on and sits at 0.4 from sample 4631 on |
| Profiles.BrightHeldNote | fms.py:27-29 | a held bright note sits at 0.6 from sample 4631 on |
| Profiles.ReleaseDeadlines | fms2.py:29 | a released voice is dead from sample 6615 on (piano) and from sample 8820 on (bright) |
| Profiles.PianoNeverExceedsMaxVoices | fms2.py:11 | under the piano program no message stream ever holds more than 32 voices |
| Profiles.BrightOneVoicePerNoteOn | fms.py:91-95 | under the bright program the list holds one voice per note-on with positive velocity |
| Profiles.DrainCallbacks | fms2.py:10 | after the final release, 13 callbacks of 512 frames empty the piano program's list and 18 empty the bright program's |
| Profiles.BrightScheduleGrowth | fms.py:87-119 | under every interleaving of messages and callbacks the bright program holds no more voices than note-ons handled |
| Profiles.PianoScheduleWithinMaxVoices | fms2.py:86-139 | under every interleaving of messages and callbacks the piano program never holds more than 32 voices |

The two programs differ only in their constants and in the ceiling:

- `fms.py`'s `generate`, `note_off` and `is_dead` (fms.py:37-78) are the same
  code as `fms2.py`'s and are covered by the same members under the profile
  `Bright`.
- Its note-on region (fms.py:91-95) is `VoicePool.NoteOn` with the ceiling
  `Unlimited`.
- Its note-off region, final release and callback (fms.py:96-119) are the
  same as in `fms2.py`.

## Left out

- Oscillator numerics: the carrier and modulator sines and the phase
  bookkeeping between blocks (fms2.py:37-39, 64-67; fms.py:38-40, 65-68) are
  floating-point trigonometry. The carrier is an input sequence, and the
  modulator frequency and index are only stored. So phase continuity across
  blocks is not modelled.
- `note_to_freq` (fms2.py:13-14; fms.py:12-14) uses floating-point powers of
  two. It is the parameter `noteToFreq`, so the 0.001 Hz matching is stated on
  whatever frequencies it yields.
- Floating-point rounding and the final `float32` conversion (fms2.py:69,
  121) are left out: levels and samples are exact reals.
- MIDI file parsing and real-time pacing by `mido` (fms2.py:81, 87) are
  outside the model. The messages are an input sequence.
- Threads are left out: the lock, `time.sleep` and the `playing` flag
  (fms2.py:83-89, 117-118, 132-139). Each locked region is one atomic method.
  The early `break` when playback is stopped is the same as a shorter message
  sequence.
- The sound device stream and the file-dialog front end (fms2.py:141-157;
  fms.py:125-147) are left out.
- Player.MidiFMPlayer.NoteOn follows the code at the ceiling: it releases the
  oldest voice and drops the new note. It does not follow the alternative that
  the comment at fms2.py:99-105 mentions, which releases the oldest voice and
  also adds the new one.
- Player.MidiFMPlayer.PlayMidi states the list after the whole message sequence
  with no audio callback in between. In the program, callbacks run concurrently
  every 512 frames. What holds under every interleaving is that each atomic
  method preserves `MidiFMPlayer.Valid()` (ceiling, distinct voices, envelope
  invariants), and that VoicePool.ScheduleKeeps and VoicePool.ScheduleGrowth
  hold for the value model.
- VoicePool.Replay and VoicePool.Session describe message handling with no
  callback in between: they are the schedule in which no block is requested.
  VoicePool.Schedule covers the interleaved case.
- Profiles.BrightOneVoicePerNoteOn counts voices only for a schedule with no
  callback between the messages. Under interleaving, only the upper bound of
  Profiles.BrightScheduleGrowth holds, because callbacks remove dead voices.
- Player.MidiFMPlayer.NoteOn writes the in-place `append` as a reassignment of
  the `seq` field. No other holder of the list object exists in the program,
  so the aliasing of the list itself is not modelled.
- Player.GenerateEach takes the profile of the voices as a ghost parameter.
  A voice object in the original carries its constants itself; here every
  voice of one player shares the player's profile.
