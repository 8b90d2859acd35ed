// The two synthesis programs as instances of the one engine: `fms2.py`, the
// piano-like timbre with a polyphony ceiling, and `fms.py`, the brighter
// timbre without one.

module Profiles {
  import opened Envelope
  import Voice
  import VoicePool

  /** Sample rate of both programs, in samples per second. */
  const SampleRate: real := 44100.0

  /** Frames the audio device asks for in each callback. */
  const BlockSize: nat := 512

  /** The polyphony ceiling of the piano-like program. */
  const MaxVoices: nat := 32

  /** `fms2.py`: modulator at twice the carrier, index 7 + 4 * velocity, a short
      attack, decay to 0.4, release over 0.15 s, at most `MaxVoices` voices. */
  const Piano: Profile := Profile(2.0, 7.0, 4.0, 0.005, 0.1, 0.4, 0.15, SampleRate, AtMost(MaxVoices))

  /** `fms.py`: modulator at twice the carrier, index 4 + 3 * velocity, decay to
      0.6, release over 0.2 s, no ceiling. */
  const Bright: Profile := Profile(2.0, 4.0, 3.0, 0.005, 0.1, 0.6, 0.2, SampleRate, Unlimited)

  /** Both programs satisfy the engine's assumptions: positive times and rate,
      a sustain level inside [0, 1]. */
  lemma ProfilesValid()
    ensures ValidProfile(Piano) && ValidProfile(Bright)
    ensures Piano.maxVoices == AtMost(32) && Bright.maxVoices == Unlimited
  {
  }

  /** A held piano note has left its attack from sample 221 on (0.005 s at
      44100 Hz is 220.5 samples), and from sample 221 + 4410 on it sits at the
      sustain level 0.4. */
  lemma PianoHeldNote(n: nat)
    ensures n >= 221 ==> Run(Piano, Initial, n).stage != Attack
    ensures n >= 4631 ==> Run(Piano, Initial, n).stage == Sustain && Run(Piano, Initial, n).level == 0.4
  {
    InitialInv(Piano);
    if n >= 221 {
      AttackEnds(Piano, Initial, n);
    }
    if n >= 4631 {
      ReachesSustain(Piano, 221, n - 221);
    }
  }

  /** A held bright note sits at its sustain level 0.6 from sample 221 + 4410 on. */
  lemma BrightHeldNote(n: nat)
    requires n >= 4631
    ensures Run(Bright, Initial, n).stage == Sustain && Run(Bright, Initial, n).level == 0.6
  {
    var a, d := 221, n - 221;
    assert ValidProfile(Bright);
    assert a as real >= Bright.attackTime * Bright.fs && d as real >= Bright.decayTime * Bright.fs;
    ReachesSustain(Bright, a, d);
  }

  /** A released voice is dead from sample 6615 (0.15 s) on under the piano
      profile and from sample 8820 (0.2 s) on under the bright one, whatever
      level it was released at. In Release the envelope invariant does not
      mention the sustain level, so one profile's invariant is the other's. */
  lemma ReleaseDeadlines(e: EnvelopeState, n: nat)
    requires Inv(Piano, e) && e.stage == Release
    ensures n >= 6615 ==> Run(Piano, e, n).dead && Run(Piano, e, n).level == 0.0
    ensures n >= 8820 ==> Run(Bright, e, n).dead && Run(Bright, e, n).level == 0.0
  {
    if n >= 6615 {
      ReleaseEnds(Piano, e, n);
    }
    if n >= 8820 {
      assert Inv(Bright, e);
      ReleaseEnds(Bright, e, n);
    }
  }

  /** Under the piano profile no stream of MIDI messages, and no session, ever
      holds more than 32 voices. */
  lemma PianoNeverExceedsMaxVoices(msgs: seq<VoicePool.Message>, noteToFreq: int -> real)
    ensures |VoicePool.Replay(Piano, [], msgs, noteToFreq)| <= 32
    ensures |VoicePool.Session(Piano, [], msgs, noteToFreq)| <= 32
  {
    VoicePool.ReplayWithinCap(Piano, [], msgs, noteToFreq);
  }

  /** Under the bright profile every note-on with positive velocity adds one voice:
      with no block rendered in between, the list holds exactly that many. */
  lemma BrightOneVoicePerNoteOn(msgs: seq<VoicePool.Message>, noteToFreq: int -> real)
    ensures |VoicePool.Replay(Bright, [], msgs, noteToFreq)| == VoicePool.NoteOnCount(msgs)
  {
    VoicePool.UncappedReplayLength(Bright, [], msgs, noteToFreq);
  }

  /** After the final release, 13 audio callbacks of `BlockSize` frames (6656
      frames, at least the 6615 of 0.15 s) empty the piano program's list, and 18
      (9216 frames, at least the 8820 of 0.2 s) empty the bright program's. */
  lemma DrainCallbacks(vs: seq<Voice.VoiceView>, blocks: seq<nat>)
    requires forall i :: 0 <= i < |vs| ==> vs[i].env.stage == Release
    requires forall i :: 0 <= i < |blocks| ==> blocks[i] == BlockSize
    ensures VoicePool.AllValid(Piano, vs) && |blocks| >= 13 ==> VoicePool.RenderBlocks(Piano, vs, blocks) == []
    ensures VoicePool.AllValid(Bright, vs) && |blocks| >= 18 ==> VoicePool.RenderBlocks(Bright, vs, blocks) == []
  {
    VoicePool.TotalOfEqual(blocks, BlockSize);
    if VoicePool.AllValid(Piano, vs) && |blocks| >= 13 {
      assert VoicePool.Total(blocks) >= 6656;
      VoicePool.DrainInBlocks(Piano, vs, blocks);
    }
    if VoicePool.AllValid(Bright, vs) && |blocks| >= 18 {
      assert VoicePool.Total(blocks) >= 9216;
      VoicePool.DrainInBlocks(Bright, vs, blocks);
    }
  }

  /** Under the bright program, however callbacks interleave with the messages,
      the list never holds more voices than the note-ons handled so far. */
  lemma BrightScheduleGrowth(evs: seq<VoicePool.Event>, noteToFreq: int -> real)
    ensures |VoicePool.Schedule(Bright, [], evs, noteToFreq)| <= VoicePool.NoteOnEvents(evs)
  {
    VoicePool.ScheduleGrowth(Bright, [], evs, noteToFreq);
  }

  /** Under the piano program, however callbacks interleave with the messages,
      the list never holds more than 32 voices. */
  lemma PianoScheduleWithinMaxVoices(evs: seq<VoicePool.Event>, noteToFreq: int -> real)
    ensures |VoicePool.Schedule(Piano, [], evs, noteToFreq)| <= 32
  {
    VoicePool.ScheduleKeeps(Piano, [], evs, noteToFreq);
  }
}
