// One sounding note: `FMVoice` of the synthesiser, an FM oscillator pair
// driven by the ADSR envelope of module Envelope.

module Voice {
  import opened Envelope

  /** Fixed output gain of every voice, headroom for polyphony. */
  const Gain: real := 0.6

  /** The state of a voice as a value: its carrier frequency, its normalised
      velocity and its envelope fields. */
  datatype VoiceView = VoiceView(freq: real, velocity: real, env: EnvelopeState)

  /** MIDI velocity 0..127 scaled to 0..1, as the constructor stores it. */
  function NormalizedVelocity(velocity: int): real {
    velocity as real / 127.0
  }

  /** The value of a voice just constructed for a note-on. */
  function NewVoice(freq: real, velocity: int): VoiceView {
    VoiceView(freq, NormalizedVelocity(velocity), Initial)
  }

  /** One output sample: carrier sample times envelope level times velocity times gain. */
  function Sample(carrier: real, level: real, velocity: real): real {
    carrier * level * velocity * Gain
  }

  /** Samples of a block given its envelope array: carrier times envelope times
      velocity times the fixed gain, element by element. */
  function Scaled(carrier: seq<real>, envelope: seq<real>, velocity: real): (r: seq<real>)
    requires |envelope| == |carrier|
    ensures |r| == |carrier|
  {
    seq(|carrier|, i requires 0 <= i < |carrier| => Sample(carrier[i], envelope[i], velocity))
  }

  /** The samples one `generate` call returns: the carrier (an opaque input here,
      the oscillator numerics are not modelled) shaped by the envelope levels the
      voice passes through, one per sample. */
  function Block(p: Profile, v: VoiceView, carrier: seq<real>): (r: seq<real>)
    requires ValidProfile(p)
    ensures |r| == |carrier|
  {
    Scaled(carrier, Trace(p, v.env, |carrier|), v.velocity)
  }

  /** Sample `i` of a block: the carrier sample times the envelope level after
      `i + 1` samples times velocity and gain. */
  lemma BlockAt(p: Profile, v: VoiceView, carrier: seq<real>, i: nat)
    requires ValidProfile(p) && i < |carrier|
    ensures Block(p, v, carrier)[i] == Sample(carrier[i], Run(p, v.env, i + 1).level, v.velocity)
  {
    var level := Trace(p, v.env, |carrier|)[i];
    assert level == Run(p, v.env, i + 1).level;
  }

  lemma ScaledBounded(c: real, l: real, v: real)
    requires -1.0 <= c <= 1.0 && 0.0 <= l <= 1.0 && 0.0 <= v <= 1.0
    ensures -1.0 <= c * l * v <= 1.0
  {
    var cl := c * l;
    assert -1.0 <= cl <= 1.0 by {
      if c >= 0.0 {
        assert c * l <= 1.0 * l;
        assert c * l >= 0.0 * l;
      } else {
        assert c * l >= -1.0 * l;
        assert c * l <= 0.0 * l;
      }
    }
    var clv := cl * v;
    assert -1.0 <= clv <= 1.0 by {
      if cl >= 0.0 {
        assert cl * v <= cl * 1.0;
        assert cl * v >= cl * 0.0;
      } else {
        assert cl * v >= cl * 1.0;
        assert cl * v <= cl * 0.0;
      }
    }
    assert c * l * v == clv;
  }

  lemma SampleBounded(c: real, l: real, v: real, s: real)
    requires -1.0 <= c <= 1.0 && 0.0 <= l <= 1.0 && 0.0 <= v <= 1.0
    requires s == Sample(c, l, v)
    ensures -Gain <= s <= Gain
  {
    ScaledBounded(c, l, v);
    var y := c * l * v;
    assert -Gain <= y * Gain <= Gain;
  }

  /** With a carrier in [-1, 1] and a velocity in [0, 1], every sample of a voice
      stays within the gain, so polyphony is what determines the peak. */
  lemma BlockBounded(p: Profile, v: VoiceView, carrier: seq<real>)
    requires ValidProfile(p) && Inv(p, v.env) && 0.0 <= v.velocity <= 1.0
    requires forall i :: 0 <= i < |carrier| ==> -1.0 <= carrier[i] <= 1.0
    ensures forall i :: 0 <= i < |carrier| ==> -Gain <= Block(p, v, carrier)[i] <= Gain
  {
    var envelope := Trace(p, v.env, |carrier|);
    forall i | 0 <= i < |carrier|
      ensures -Gain <= Block(p, v, carrier)[i] <= Gain
    {
      RunKeepsInv(p, v.env, i + 1);
      var c, l, w := carrier[i], envelope[i], v.velocity;
      SampleBounded(c, l, w, Block(p, v, carrier)[i]);
    }
  }

  /** A dead voice is silent: all of its samples are zero. */
  lemma DeadBlockSilent(p: Profile, v: VoiceView, carrier: seq<real>)
    requires ValidProfile(p) && Inv(p, v.env) && v.env.dead
    ensures forall i :: 0 <= i < |carrier| ==> Block(p, v, carrier)[i] == 0.0
  {
    forall i | 0 <= i < |carrier|
      ensures Block(p, v, carrier)[i] == 0.0
    {
      DeadIsFixedPoint(p, v.env, i + 1);
      assert Trace(p, v.env, |carrier|)[i] == 0.0;
    }
  }

  class FMVoice {
    const profile: Profile
    const freq: real
    const velocity: real
    const modFreq: real
    const modIndex: real

    var state: Stage
    var envelopeLevel: real
    var releaseStartLevel: real
    var dead: bool

    function EnvState(): EnvelopeState
      reads this
    {
      EnvelopeState(state, envelopeLevel, releaseStartLevel, dead)
    }

    function View(): VoiceView
      reads this
    {
      VoiceView(freq, velocity, EnvState())
    }

    ghost predicate Valid()
      reads this
    {
      ValidProfile(profile) && Inv(profile, EnvState())
    }

    /** Derived parameters are computed here once; being constants they are never reassigned. */
    constructor (p: Profile, freq: real, velocity: int)
      requires ValidProfile(p)
      ensures Valid() && profile == p
      ensures this.freq == freq && this.velocity == velocity as real / 127.0
      ensures modFreq == freq * p.ratio
      ensures modIndex == p.modIndexBase + p.modIndexScale * this.velocity
      ensures View() == NewVoice(freq, velocity)
    {
      profile := p;
      this.freq := freq;
      this.velocity := velocity as real / 127.0;
      modFreq := freq * p.ratio;
      modIndex := p.modIndexBase + p.modIndexScale * (velocity as real / 127.0);
      envelopeLevel := 0.0;
      releaseStartLevel := 0.0;
      state := Attack;
      dead := false;
      new;
      InitialInv(p);
    }

    /** Advances the envelope by `numSamples` samples, filling the envelope array
        in order, and returns the voice's samples for the block. */
    method Generate(numSamples: nat, carrier: seq<real>) returns (output: seq<real>)
      requires Valid() && |carrier| == numSamples
      modifies this
      ensures Valid()
      ensures EnvState() == Run(profile, old(EnvState()), numSamples)
      ensures output == Block(profile, old(View()), carrier)
    {
      ghost var start := EnvState();
      var envelope := new real[numSamples];
      for i := 0 to numSamples
        invariant EnvState() == Run(profile, start, i)
        invariant forall k :: 0 <= k < i ==> envelope[k] == Run(profile, start, k + 1).level
      {
        AdvanceOneSample();
        envelope[i] := envelopeLevel;
      }
      assert envelope[..] == Trace(profile, start, numSamples);
      output := Scaled(carrier, envelope[..], velocity);
      RunKeepsInv(profile, start, numSamples);
    }

    /** One iteration of the per-sample loop of `generate`: the envelope transition table. */
    method AdvanceOneSample()
      requires ValidProfile(profile)
      modifies this
      ensures EnvState() == Step(profile, old(EnvState()))
    {
      if state == Attack {
        envelopeLevel := envelopeLevel + 1.0 / (profile.attackTime * profile.fs);
        if envelopeLevel >= 1.0 {
          envelopeLevel := 1.0;
          state := Decay;
        }
        assert EnvState() == Step(profile, old(EnvState()));
      } else if state == Decay {
        envelopeLevel := envelopeLevel - (1.0 - profile.sustainLevel) / (profile.decayTime * profile.fs);
        if envelopeLevel <= profile.sustainLevel {
          envelopeLevel := profile.sustainLevel;
          state := Sustain;
        }
        assert EnvState() == Step(profile, old(EnvState()));
      } else if state == Sustain {
        // the level holds until a note-off
      } else if state == Release {
        envelopeLevel := envelopeLevel - releaseStartLevel / (profile.releaseTime * profile.fs);
        if envelopeLevel <= 0.0 {
          envelopeLevel := 0.0;
          dead := true;
        }
        assert EnvState() == Step(profile, old(EnvState()));
      }
    }

    /** Enters Release, capturing the current level, unless already releasing. */
    method NoteOff()
      requires Valid()
      modifies this
      ensures Valid()
      ensures EnvState() == Envelope.NoteOff(old(EnvState()))
    {
      if state != Release {
        releaseStartLevel := envelopeLevel;
        state := Release;
      }
    }

    /** A voice is dead only once its release has brought the level to 0. */
    function IsDead(): (d: bool)
      reads this
      requires Valid()
      ensures d ==> state == Release && envelopeLevel == 0.0
      ensures d == EnvState().dead
    {
      dead
    }
  }
}
