// The ADSR envelope of one FM voice, advanced one sample at a time.
// Levels are reals; the float rounding of the original is not modelled.

module Envelope {

  datatype Stage = Attack | Decay | Sustain | Release

  /** Polyphony ceiling of a profile: none, or at most `n` live voices. */
  datatype Cap = Unlimited | AtMost(n: nat)

  /** The constants that distinguish one synthesis profile from another. */
  datatype Profile = Profile(
    ratio: real,           // modulator frequency / carrier frequency
    modIndexBase: real,    // modulation index at velocity 0
    modIndexScale: real,   // added modulation index per unit of normalised velocity
    attackTime: real,      // seconds
    decayTime: real,       // seconds
    sustainLevel: real,
    releaseTime: real,     // seconds
    fs: real,              // sample rate, samples per second
    maxVoices: Cap)

  /** Positive times and sample rate (no division by zero), a sustain level
      inside [0, 1] and a ceiling that leaves room for at least one voice. */
  predicate ValidProfile(p: Profile) {
    p.fs > 0.0 && p.attackTime > 0.0 && p.decayTime > 0.0 && p.releaseTime > 0.0 &&
    0.0 <= p.sustainLevel <= 1.0 &&
    (p.maxVoices.AtMost? ==> p.maxVoices.n > 0)
  }

  /** The mutable envelope fields of a voice: `state`, `envelope_level`,
      `release_start_level` and `dead`. */
  datatype EnvelopeState = EnvelopeState(stage: Stage, level: real, releaseStart: real, dead: bool)

  /** A freshly constructed voice: silent, attacking, not dead. */
  const Initial := EnvelopeState(Attack, 0.0, 0.0, false)

  function StageRank(s: Stage): nat {
    match s
    case Attack => 0
    case Decay => 1
    case Sustain => 2
    case Release => 3
  }

  /** Level gained per sample in Attack. */
  function AttackIncrement(p: Profile): real
    requires ValidProfile(p)
  {
    1.0 / (p.attackTime * p.fs)
  }

  /** Level lost per sample in Decay. */
  function DecayDecrement(p: Profile): real
    requires ValidProfile(p)
  {
    (1.0 - p.sustainLevel) / (p.decayTime * p.fs)
  }

  /** Level lost per sample in Release: proportional to the level captured at note-off. */
  function ReleaseDecrement(p: Profile, e: EnvelopeState): real
    requires ValidProfile(p)
  {
    e.releaseStart / (p.releaseTime * p.fs)
  }

  /** One iteration of the per-sample loop of `generate`: the stage moves forward
      by at most one place, the captured release level is never touched, a dead
      envelope stays dead, and an envelope only dies at level 0 in Release. */
  function Step(p: Profile, e: EnvelopeState): (r: EnvelopeState)
    requires ValidProfile(p)
    ensures StageRank(e.stage) <= StageRank(r.stage) <= StageRank(e.stage) + 1
    ensures r.releaseStart == e.releaseStart
    ensures e.dead ==> r.dead
    ensures r.dead && !e.dead ==> r.stage == Release && r.level == 0.0
  {
    match e.stage
    case Attack =>
      var l := e.level + AttackIncrement(p);
      if l >= 1.0 then e.(level := 1.0, stage := Decay) else e.(level := l)
    case Decay =>
      var l := e.level - DecayDecrement(p);
      if l <= p.sustainLevel then e.(level := p.sustainLevel, stage := Sustain) else e.(level := l)
    case Sustain => e
    case Release =>
      var l := e.level - ReleaseDecrement(p, e);
      if l <= 0.0 then e.(level := 0.0, dead := true) else e.(level := l)
  }

  /** `note_off`: capture the current level and enter Release, unless already releasing.
      The level itself is kept, so the note fades out from where it was. */
  function NoteOff(e: EnvelopeState): (r: EnvelopeState)
    ensures r.stage == Release && r.level == e.level && r.dead == e.dead
    ensures StageRank(r.stage) >= StageRank(e.stage)
  {
    if e.stage != Release then e.(releaseStart := e.level, stage := Release) else e
  }

  /** The envelope after `n` samples; once dead, it stays dead. */
  function Run(p: Profile, e: EnvelopeState, n: nat): (r: EnvelopeState)
    requires ValidProfile(p)
    ensures e.dead ==> r.dead
  {
    if n == 0 then e else Step(p, Run(p, e, n - 1))
  }

  /** The envelope array that `generate(n)` fills: entry i is the level after the (i+1)-th step. */
  function Trace(p: Profile, e: EnvelopeState, n: nat): (r: seq<real>)
    requires ValidProfile(p)
    ensures |r| == n
    ensures forall i :: 0 <= i < n ==> r[i] == Run(p, e, i + 1).level
  {
    if n == 0 then [] else Trace(p, e, n - 1) + [Run(p, e, n).level]
  }

  /** What holds of every reachable envelope. */
  ghost predicate Inv(p: Profile, e: EnvelopeState) {
    0.0 <= e.level <= 1.0 &&
    0.0 <= e.releaseStart <= 1.0 &&
    (e.stage == Attack ==> e.level < 1.0) &&
    (e.stage == Decay ==> e.level >= p.sustainLevel) &&
    (e.stage == Sustain ==> e.level == p.sustainLevel) &&
    (e.stage == Release ==> e.level <= e.releaseStart) &&
    (e.dead ==> e.stage == Release && e.level == 0.0)
  }

  lemma InitialInv(p: Profile)
    requires ValidProfile(p)
    ensures Inv(p, Initial) && Initial.stage == Attack && Initial.level == 0.0 && !Initial.dead
  {
  }

  /** The per-sample increments are never negative, so the ramps move the right way. */
  lemma IncrementsNonNegative(p: Profile, e: EnvelopeState)
    requires ValidProfile(p) && 0.0 <= e.releaseStart
    ensures AttackIncrement(p) > 0.0 && DecayDecrement(p) >= 0.0 && ReleaseDecrement(p, e) >= 0.0
  {
    assert p.attackTime * p.fs > 0.0;
    assert p.decayTime * p.fs > 0.0;
    assert p.releaseTime * p.fs > 0.0;
  }

  /** One sample keeps the level in [0, 1] and the other invariants. */
  lemma StepKeepsInv(p: Profile, e: EnvelopeState)
    requires ValidProfile(p) && Inv(p, e)
    ensures Inv(p, Step(p, e))
  {
    IncrementsNonNegative(p, e);
  }

  /** Attack only raises the level, Decay and Release only lower it, Sustain holds it;
      the stage never moves backwards and Release is never left. */
  lemma StepDirection(p: Profile, e: EnvelopeState)
    requires ValidProfile(p) && Inv(p, e)
    ensures var r := Step(p, e);
      StageRank(r.stage) >= StageRank(e.stage) &&
      (e.stage == Release <==> r.stage == Release) &&
      (e.stage == Attack ==> r.level > e.level) &&
      (e.stage == Decay ==> r.level <= e.level) &&
      (e.stage == Sustain ==> r == e) &&
      (e.stage == Release ==> r.level <= e.level && r.releaseStart == e.releaseStart) &&
      (e.dead ==> r.dead)
  {
    IncrementsNonNegative(p, e);
  }

  /** A sample moves the stage forward by at most one place. */
  lemma StepStage(p: Profile, e: EnvelopeState)
    requires ValidProfile(p)
    ensures e.stage == Attack ==> Step(p, e).stage in {Attack, Decay}
    ensures e.stage == Decay ==> Step(p, e).stage in {Decay, Sustain}
    ensures e.stage in {Sustain, Release} ==> Step(p, e).stage == e.stage
  {
  }

  /** `note_off` keeps the invariants, always ends in Release, and a second call is a no-op. */
  lemma NoteOffProperties(p: Profile, e: EnvelopeState)
    requires Inv(p, e)
    ensures Inv(p, NoteOff(e))
    ensures NoteOff(e).stage == Release
    ensures NoteOff(NoteOff(e)) == NoteOff(e)
    ensures e.stage == Release ==> NoteOff(e) == e
    ensures e.stage != Release ==> NoteOff(e) == EnvelopeState(Release, e.level, e.level, e.dead)
  {
  }

  /** Releasing at level L: the next sample is L - L/(release_time*fs), clamped at 0. */
  lemma FirstReleaseSample(p: Profile, e: EnvelopeState)
    requires ValidProfile(p) && Inv(p, e) && e.stage != Release
    ensures var L := e.level;
      var r := Step(p, NoteOff(e));
      r.stage == Release && r.releaseStart == L &&
      (L - L / (p.releaseTime * p.fs) <= 0.0 ==> r.level == 0.0 && r.dead) &&
      (L - L / (p.releaseTime * p.fs) > 0.0 ==> r.level == L - L / (p.releaseTime * p.fs) && !r.dead)
  {
  }

  /** The level stays in [0, 1] over any number of samples. */
  lemma {:induction false} RunKeepsInv(p: Profile, e: EnvelopeState, n: nat)
    requires ValidProfile(p) && Inv(p, e)
    ensures Inv(p, Run(p, e, n))
    ensures StageRank(Run(p, e, n).stage) >= StageRank(e.stage)
  {
    if n > 0 {
      RunKeepsInv(p, e, n - 1);
      StepKeepsInv(p, Run(p, e, n - 1));
      StepDirection(p, Run(p, e, n - 1));
    }
  }

  /** Sampling never moves the stage backwards, whatever the starting envelope. */
  lemma {:induction false} RunNeverRegresses(p: Profile, e: EnvelopeState, n: nat)
    requires ValidProfile(p)
    ensures StageRank(Run(p, e, n).stage) >= StageRank(e.stage)
  {
    if n > 0 {
      RunNeverRegresses(p, e, n - 1);
    }
  }

  /** Splitting a run into two blocks gives the same envelope as one block:
      consecutive `generate` calls continue exactly where the previous one stopped. */
  lemma {:induction false} RunAdditive(p: Profile, e: EnvelopeState, a: nat, b: nat)
    requires ValidProfile(p)
    ensures Run(p, Run(p, e, a), b) == Run(p, e, a + b)
  {
    if b > 0 {
      RunAdditive(p, e, a, b - 1);
    }
  }

  /** Release is absorbing: no number of samples and no `note_off` leaves it,
      and the captured release level is never recaptured. */
  lemma {:induction false} ReleaseAbsorbing(p: Profile, e: EnvelopeState, n: nat)
    requires ValidProfile(p) && e.stage == Release
    ensures Run(p, e, n).stage == Release
    ensures Run(p, e, n).releaseStart == e.releaseStart
    ensures NoteOff(Run(p, e, n)) == Run(p, e, n)
  {
    if n > 0 {
      ReleaseAbsorbing(p, e, n - 1);
    }
  }

  /** A dead envelope is a fixed point: it stays dead at level 0 forever. */
  lemma {:induction false} DeadIsFixedPoint(p: Profile, e: EnvelopeState, n: nat)
    requires ValidProfile(p) && Inv(p, e) && e.dead
    ensures Run(p, e, n) == e
    ensures Run(p, e, n).dead && Run(p, e, n).level == 0.0
  {
    if n > 0 {
      DeadIsFixedPoint(p, e, n - 1);
    }
  }

  /** Without a `note_off`, sampling never enters Release. */
  lemma {:induction false} NoSpontaneousRelease(p: Profile, e: EnvelopeState, n: nat)
    requires ValidProfile(p) && e.stage != Release && !e.dead
    ensures Run(p, e, n).stage != Release && !Run(p, e, n).dead
  {
    if n > 0 {
      NoSpontaneousRelease(p, e, n - 1);
    }
  }

  /** `note_off` called twice yields the same trajectory as calling it once. */
  lemma NoteOffTwiceSameTrajectory(p: Profile, e: EnvelopeState, n: nat)
    requires ValidProfile(p)
    ensures Trace(p, NoteOff(NoteOff(e)), n) == Trace(p, NoteOff(e), n)
  {
  }

  // ---- timing: each ramp finishes within its configured duration ----

  /** `x` moved by `d` on each of `j` samples. */
  function Ramp(x: real, d: real, j: nat): real {
    if j == 0 then x else Ramp(x, d, j - 1) + d
  }

  lemma {:induction false} RampIsLinear(x: real, d: real, j: nat)
    ensures Ramp(x, d, j) == x + j as real * d
  {
    if j > 0 {
      RampIsLinear(x, d, j - 1);
      assert (j - 1) as real * d + d == ((j - 1) as real + 1.0) * d;
    }
  }

  /** If k >= t > 0 then k * (a / t) >= a for a >= 0. */
  lemma Covers(k: nat, t: real, a: real)
    requires t > 0.0 && a >= 0.0 && k as real >= t
    ensures k as real * (a / t) >= a
  {
    var q := a / t;
    assert q * t == a;
    assert q >= 0.0;
    assert k as real * q >= t * q;
  }

  lemma PositiveSpan(t: real, fs: real)
    requires t > 0.0 && fs > 0.0
    ensures t * fs > 0.0
  {
  }

  /** attack_time seconds of Attack steps take any level in [0, 1] up to full level. */
  lemma AttackCovers(p: Profile, x: real, k: nat, y: real)
    requires ValidProfile(p) && 0.0 <= x
    requires k as real >= p.attackTime * p.fs
    requires y == Ramp(x, AttackIncrement(p), k)
    ensures y >= 1.0
  {
    PositiveSpan(p.attackTime, p.fs);
    RampIsLinear(x, AttackIncrement(p), k);
    Covers(k, p.attackTime * p.fs, 1.0);
  }

  /** decay_time seconds of Decay steps take any level in [0, 1] down to the sustain level. */
  lemma DecayCovers(p: Profile, x: real, k: nat, y: real)
    requires ValidProfile(p) && x <= 1.0
    requires k as real >= p.decayTime * p.fs
    requires y == Ramp(x, -DecayDecrement(p), k)
    ensures y <= p.sustainLevel
  {
    PositiveSpan(p.decayTime, p.fs);
    RampIsLinear(x, -DecayDecrement(p), k);
    Covers(k, p.decayTime * p.fs, 1.0 - p.sustainLevel);
  }

  /** release_time seconds of Release steps take the captured level down to 0. */
  lemma ReleaseCovers(p: Profile, e: EnvelopeState, k: nat, y: real)
    requires ValidProfile(p) && e.level <= e.releaseStart && 0.0 <= e.releaseStart
    requires k as real >= p.releaseTime * p.fs
    requires y == Ramp(e.level, -ReleaseDecrement(p, e), k)
    ensures y <= 0.0
  {
    PositiveSpan(p.releaseTime, p.fs);
    RampIsLinear(e.level, -ReleaseDecrement(p, e), k);
    Covers(k, p.releaseTime * p.fs, e.releaseStart);
  }

  lemma AttackStepLevel(p: Profile, e: EnvelopeState)
    requires ValidProfile(p) && e.stage == Attack && Step(p, e).stage == Attack
    ensures Step(p, e).level == e.level + AttackIncrement(p)
  {
  }

  lemma DecayStepLevel(p: Profile, e: EnvelopeState)
    requires ValidProfile(p) && e.stage == Decay && Step(p, e).stage == Decay
    ensures Step(p, e).level == e.level - DecayDecrement(p)
    ensures Step(p, e).level > p.sustainLevel
  {
  }

  lemma ReleaseStepLevel(p: Profile, e: EnvelopeState)
    requires ValidProfile(p) && e.stage == Release && !Step(p, e).dead
    ensures Step(p, e).stage == Release && Step(p, e).releaseStart == e.releaseStart
    ensures Step(p, e).level == e.level - ReleaseDecrement(p, e)
    ensures Step(p, e).level > 0.0
  {
  }

  /** While in Attack, the level climbs by the same increment on every sample. */
  lemma {:induction false} AttackLinear(p: Profile, e: EnvelopeState, j: nat)
    requires ValidProfile(p) && e.stage == Attack && Run(p, e, j).stage == Attack
    ensures Run(p, e, j).level == Ramp(e.level, AttackIncrement(p), j)
  {
    if j > 0 {
      var prev := Run(p, e, j - 1);
      StepStage(p, prev);
      AttackLinear(p, e, j - 1);
      AttackStepLevel(p, prev);
    }
  }

  /** Attack reaches full level within attack_time seconds of samples. */
  lemma AttackEnds(p: Profile, e: EnvelopeState, k: nat)
    requires ValidProfile(p) && Inv(p, e) && e.stage == Attack
    requires k as real >= p.attackTime * p.fs
    ensures Run(p, e, k).stage != Attack
  {
    var r := Run(p, e, k);
    if r.stage == Attack {
      RunKeepsInv(p, e, k);
      AttackLinear(p, e, k);
      AttackCovers(p, e.level, k, r.level);
      assert false;
    }
  }

  /** While in Decay, the level falls by the same decrement on every sample. */
  lemma {:induction false} DecayLinear(p: Profile, e: EnvelopeState, j: nat)
    requires ValidProfile(p) && e.stage == Decay && Run(p, e, j).stage == Decay
    ensures Run(p, e, j).level == Ramp(e.level, -DecayDecrement(p), j)
    ensures j > 0 ==> Run(p, e, j).level > p.sustainLevel
  {
    if j > 0 {
      var prev := Run(p, e, j - 1);
      RunNeverRegresses(p, e, j - 1);
      StepStage(p, prev);
      DecayLinear(p, e, j - 1);
      DecayStepLevel(p, prev);
    }
  }

  /** Decay reaches the sustain level within decay_time seconds of samples. */
  lemma DecayEnds(p: Profile, e: EnvelopeState, k: nat)
    requires ValidProfile(p) && Inv(p, e) && e.stage == Decay
    requires k as real >= p.decayTime * p.fs
    ensures Run(p, e, k).stage == Sustain
  {
    var r := Run(p, e, k);
    RunKeepsInv(p, e, k);
    NoSpontaneousRelease(p, e, k);
    PositiveSpan(p.decayTime, p.fs);
    assert k > 0;
    if r.stage == Decay {
      DecayLinear(p, e, k);
      DecayCovers(p, e.level, k, r.level);
      assert false;
    }
  }

  /** While releasing, the level falls by the same decrement, set at note-off, on every sample. */
  lemma {:induction false} ReleaseLinear(p: Profile, e: EnvelopeState, j: nat)
    requires ValidProfile(p) && e.stage == Release && !Run(p, e, j).dead
    ensures Run(p, e, j).stage == Release && Run(p, e, j).releaseStart == e.releaseStart
    ensures Run(p, e, j).level == Ramp(e.level, -ReleaseDecrement(p, e), j)
    ensures j > 0 ==> Run(p, e, j).level > 0.0
  {
    if j > 0 {
      var prev := Run(p, e, j - 1);
      assert !prev.dead;
      ReleaseLinear(p, e, j - 1);
      ReleaseStepLevel(p, prev);
    }
  }

  /** A releasing voice dies within release_time seconds of samples. */
  lemma ReleaseEnds(p: Profile, e: EnvelopeState, k: nat)
    requires ValidProfile(p) && Inv(p, e) && e.stage == Release
    requires k as real >= p.releaseTime * p.fs
    ensures Run(p, e, k).dead && Run(p, e, k).level == 0.0
  {
    var r := Run(p, e, k);
    RunKeepsInv(p, e, k);
    PositiveSpan(p.releaseTime, p.fs);
    assert k > 0;
    if !r.dead {
      ReleaseLinear(p, e, k);
      ReleaseCovers(p, e, k, r.level);
      assert false;
    }
  }

  /** A note held from onset reaches Sustain once attack_time + decay_time seconds have passed. */
  lemma ReachesSustain(p: Profile, a: nat, d: nat)
    requires ValidProfile(p)
    requires a as real >= p.attackTime * p.fs && d as real >= p.decayTime * p.fs
    ensures Run(p, Initial, a + d).stage == Sustain
    ensures Run(p, Initial, a + d).level == p.sustainLevel
  {
    InitialInv(p);
    AttackEnds(p, Initial, a);
    RunKeepsInv(p, Initial, a);
    NoSpontaneousRelease(p, Initial, a);
    var mid := Run(p, Initial, a);
    RunAdditive(p, Initial, a, d);
    if mid.stage == Decay {
      DecayEnds(p, mid, d);
    } else {
      SustainHolds(p, mid, d);
    }
    RunKeepsInv(p, Initial, a + d);
  }

  lemma {:induction false} SustainHolds(p: Profile, e: EnvelopeState, n: nat)
    requires ValidProfile(p) && e.stage == Sustain
    ensures Run(p, e, n) == e
  {
    if n > 0 {
      SustainHolds(p, e, n - 1);
    }
  }
}
