// The voice list of the player as a value: what each `with self.lock` region
// of `MidiFMPlayer` does to it, and the MIDI event dispatch that drives them.

module VoicePool {
  import opened Envelope
  import opened Voice

  /** Two frequencies closer than this (in Hz) denote the same note. */
  const Tolerance: real := 0.001

  function Abs(x: real): real {
    if x < 0.0 then -x else x
  }

  predicate Matches(v: VoiceView, freq: real) {
    Abs(v.freq - freq) < Tolerance
  }

  /** Whether a list of `n` voices respects the profile's polyphony ceiling. */
  predicate WithinCap(p: Profile, n: nat) {
    match p.maxVoices
    case Unlimited => true
    case AtMost(m) => n <= m
  }

  ghost predicate AllValid(p: Profile, vs: seq<VoiceView>) {
    forall i :: 0 <= i < |vs| ==> Inv(p, vs[i].env)
  }

  function Released(v: VoiceView): VoiceView {
    v.(env := NoteOff(v.env))
  }

  /** A note-on with positive velocity: append a new voice while below the ceiling,
      otherwise release the oldest voice and drop the new note. */
  function NoteOn(p: Profile, vs: seq<VoiceView>, freq: real, velocity: int): (r: seq<VoiceView>)
    requires ValidProfile(p)
    ensures |vs| <= |r| <= |vs| + 1
    ensures forall i :: 0 < i < |vs| ==> r[i] == vs[i]
  {
    match p.maxVoices
    case Unlimited => vs + [NewVoice(freq, velocity)]
    case AtMost(m) =>
      if |vs| < m then vs + [NewVoice(freq, velocity)] else vs[0 := Released(vs[0])]
  }

  /** A note-off: release every voice within `Tolerance` of `freq`. */
  function ReleaseMatching(vs: seq<VoiceView>, freq: real): (r: seq<VoiceView>)
    ensures |r| == |vs|
    ensures forall i :: 0 <= i < |vs| ==> r[i].freq == vs[i].freq && r[i].velocity == vs[i].velocity
  {
    seq(|vs|, i requires 0 <= i < |vs| => if Matches(vs[i], freq) then Released(vs[i]) else vs[i])
  }

  /** End of playback: release every voice. */
  function ReleaseAll(vs: seq<VoiceView>): (r: seq<VoiceView>)
    ensures |r| == |vs|
    ensures forall i :: 0 <= i < |vs| ==> r[i].env.stage == Release
  {
    seq(|vs|, i requires 0 <= i < |vs| => Released(vs[i]))
  }

  /** A voice after one `generate(n)` call: its envelope has advanced `n` samples. */
  function Advanced(p: Profile, v: VoiceView, n: nat): VoiceView
    requires ValidProfile(p)
  {
    v.(env := Run(p, v.env, n))
  }

  /** Every voice after one `generate(n)` call. */
  function Advance(p: Profile, vs: seq<VoiceView>, n: nat): (r: seq<VoiceView>)
    requires ValidProfile(p)
    ensures |r| == |vs|
  {
    seq(|vs|, i requires 0 <= i < |vs| => Advanced(p, vs[i], n))
  }

  /** The voices that are not dead, in their original order. */
  function Reap(vs: seq<VoiceView>): (r: seq<VoiceView>)
    ensures |r| <= |vs|
    ensures forall i :: 0 <= i < |r| ==> !r[i].env.dead
  {
    if vs == [] then []
    else Reap(vs[..|vs| - 1]) + (if vs[|vs| - 1].env.dead then [] else [vs[|vs| - 1]])
  }

  /** The list that `audio_callback` leaves behind for a block of `n` frames. */
  function Render(p: Profile, vs: seq<VoiceView>, n: nat): (r: seq<VoiceView>)
    requires ValidProfile(p)
    ensures |r| <= |vs|
    ensures forall i :: 0 <= i < |r| ==> !r[i].env.dead
  {
    Reap(Advance(p, vs, n))
  }

  function Silence(n: nat): (r: seq<real>)
    ensures |r| == n && forall i :: 0 <= i < n ==> r[i] == 0.0
  {
    seq(n, i => 0.0)
  }

  function Add(a: seq<real>, b: seq<real>): (r: seq<real>)
    requires |a| == |b|
    ensures |r| == |a| && forall i :: 0 <= i < |a| ==> r[i] == a[i] + b[i]
  {
    seq(|a|, i requires 0 <= i < |a| => a[i] + b[i])
  }

  predicate CarriersFit(vs: seq<VoiceView>, carriers: seq<seq<real>>, n: nat) {
    |carriers| == |vs| && forall k :: 0 <= k < |carriers| ==> |carriers[k]| == n
  }

  /** The mix of the first `k` voices: their blocks added over silence, in list order. */
  function MixFirst(p: Profile, vs: seq<VoiceView>, carriers: seq<seq<real>>, n: nat, k: nat): (r: seq<real>)
    requires ValidProfile(p) && CarriersFit(vs, carriers, n) && k <= |vs|
    ensures |r| == n
  {
    if k == 0 then Silence(n)
    else Add(MixFirst(p, vs, carriers, n, k - 1), Block(p, vs[k - 1], carriers[k - 1]))
  }

  /** The mono mix of one block: the blocks of all voices. */
  function Mix(p: Profile, vs: seq<VoiceView>, carriers: seq<seq<real>>, n: nat): (r: seq<real>)
    requires ValidProfile(p) && CarriersFit(vs, carriers, n)
    ensures |r| == n
  {
    MixFirst(p, vs, carriers, n, |vs|)
  }

  // ---- the note-on insert ----

  /** A note-on never takes the list past the ceiling. */
  lemma NoteOnWithinCap(p: Profile, vs: seq<VoiceView>, freq: real, velocity: int)
    requires ValidProfile(p) && WithinCap(p, |vs|)
    ensures WithinCap(p, |NoteOn(p, vs, freq, velocity)|)
  {
  }

  /** Below the ceiling (always, without one) the new voice goes at the end and
      nothing else changes; at the ceiling only the oldest voice is released and
      nothing is added. */
  lemma NoteOnEffect(p: Profile, vs: seq<VoiceView>, freq: real, velocity: int)
    requires ValidProfile(p)
    ensures var r := NoteOn(p, vs, freq, velocity);
      if p.maxVoices.Unlimited? || |vs| < p.maxVoices.n then
        |r| == |vs| + 1 && r[..|vs|] == vs && r[|vs|] == NewVoice(freq, velocity)
      else
        |r| == |vs| && |vs| > 0 && r[0] == Released(vs[0]) && r[0].env.stage == Release &&
        r[1..] == vs[1..]
  {
  }

  lemma NoteOnKeepsValid(p: Profile, vs: seq<VoiceView>, freq: real, velocity: int)
    requires ValidProfile(p) && AllValid(p, vs)
    ensures AllValid(p, NoteOn(p, vs, freq, velocity))
  {
    InitialInv(p);
    if |vs| > 0 {
      NoteOffProperties(p, vs[0].env);
    }
  }

  // ---- the note-off and the final release ----

  /** Exactly the matching voices are released; length, order, frequencies and
      velocities, and every other voice are unchanged. */
  lemma ReleaseMatchingEffect(vs: seq<VoiceView>, freq: real)
    ensures var r := ReleaseMatching(vs, freq);
      |r| == |vs| &&
      forall i :: 0 <= i < |vs| ==>
        r[i].freq == vs[i].freq && r[i].velocity == vs[i].velocity &&
        (Matches(vs[i], freq) ==> r[i] == Released(vs[i]) && r[i].env.stage == Release) &&
        (!Matches(vs[i], freq) ==> r[i] == vs[i])
  {
  }

  /** Repeating a note-off changes nothing more. */
  lemma ReleaseMatchingIdempotent(vs: seq<VoiceView>, freq: real)
    ensures ReleaseMatching(ReleaseMatching(vs, freq), freq) == ReleaseMatching(vs, freq)
  {
  }

  /** After the final release every voice is `note_off` of its old value, so it is
      releasing from the level it had; nothing is added or removed. */
  lemma ReleaseAllEffect(vs: seq<VoiceView>)
    ensures var r := ReleaseAll(vs);
      |r| == |vs| &&
      forall i :: 0 <= i < |vs| ==>
        r[i] == Released(vs[i]) && r[i].env.stage == Release && r[i].freq == vs[i].freq
  {
  }

  lemma ReleasedKeepsValid(p: Profile, vs: seq<VoiceView>, freq: real)
    requires AllValid(p, vs)
    ensures AllValid(p, ReleaseMatching(vs, freq)) && AllValid(p, ReleaseAll(vs))
  {
    forall i | 0 <= i < |vs| ensures Inv(p, NoteOff(vs[i].env)) {
      NoteOffProperties(p, vs[i].env);
    }
  }

  // ---- the mix-and-reap pass ----

  /** Reaping a concatenation reaps each part: the survivors keep their relative order. */
  lemma {:induction false} ReapConcat(a: seq<VoiceView>, b: seq<VoiceView>)
    ensures Reap(a + b) == Reap(a) + Reap(b)
    decreases |b|
  {
    if b == [] {
      assert a + b == a;
    } else {
      var k := |b| - 1;
      assert (a + b)[..|a + b| - 1] == a + b[..k];
      ReapConcat(a, b[..k]);
    }
  }

  /** The survivors are exactly the voices that are not dead, and there are no more of them. */
  lemma {:induction false} ReapKeepsExactlyLive(vs: seq<VoiceView>)
    ensures |Reap(vs)| <= |vs|
    ensures forall v :: v in Reap(vs) ==> v in vs && !v.env.dead
    ensures forall v :: v in vs && !v.env.dead ==> v in Reap(vs)
  {
    if vs != [] {
      var k := |vs| - 1;
      ReapKeepsExactlyLive(vs[..k]);
      assert vs == vs[..k] + [vs[k]];
    }
  }

  /** When no voice is dead the reap removes nothing. */
  lemma {:induction false} ReapNoneDead(vs: seq<VoiceView>)
    requires forall i :: 0 <= i < |vs| ==> !vs[i].env.dead
    ensures Reap(vs) == vs
  {
    if vs != [] {
      var k := |vs| - 1;
      ReapNoneDead(vs[..k]);
      assert vs == vs[..k] + [vs[k]];
    }
  }

  lemma {:induction false} ReapKeepsValid(p: Profile, vs: seq<VoiceView>)
    requires AllValid(p, vs)
    ensures AllValid(p, Reap(vs))
  {
    if vs != [] {
      var k := |vs| - 1;
      ReapKeepsValid(p, vs[..k]);
    }
  }

  /** A block keeps the list within the ceiling and every voice's envelope invariants,
      and a voice that died during the block is already gone after it. */
  lemma RenderProperties(p: Profile, vs: seq<VoiceView>, n: nat)
    requires ValidProfile(p) && AllValid(p, vs)
    ensures WithinCap(p, |vs|) ==> WithinCap(p, |Render(p, vs, n)|)
    ensures AllValid(p, Render(p, vs, n))
    ensures forall i :: 0 <= i < |Render(p, vs, n)| ==> !Render(p, vs, n)[i].env.dead
  {
    var adv := Advance(p, vs, n);
    forall i | 0 <= i < |vs| ensures Inv(p, adv[i].env) {
      RunKeepsInv(p, vs[i].env, n);
    }
    ReapKeepsExactlyLive(adv);
    ReapKeepsValid(p, adv);
    forall i | 0 <= i < |Reap(adv)| ensures !Reap(adv)[i].env.dead {
      assert Reap(adv)[i] in Reap(adv);
    }
  }

  /** A block of at least release_time seconds empties a list in which every voice is releasing. */
  lemma {:induction false} DrainEmpties(p: Profile, vs: seq<VoiceView>, n: nat)
    requires ValidProfile(p) && AllValid(p, vs)
    requires forall i :: 0 <= i < |vs| ==> vs[i].env.stage == Release
    requires n as real >= p.releaseTime * p.fs
    ensures Render(p, vs, n) == []
  {
    if vs != [] {
      var k := |vs| - 1;
      DrainEmpties(p, vs[..k], n);
      assert Advance(p, vs, n)[..k] == Advance(p, vs[..k], n);
      ReleaseEnds(p, vs[k].env, n);
    }
  }

  /** Advancing a concatenation advances each part. */
  lemma AdvanceConcat(p: Profile, a: seq<VoiceView>, b: seq<VoiceView>, n: nat)
    requires ValidProfile(p)
    ensures Advance(p, a + b, n) == Advance(p, a, n) + Advance(p, b, n)
  {
  }

  /** A block of `a` frames followed by a block of `b` frames advances every voice
      as one block of `a + b` frames would. */
  lemma AdvanceAdditive(p: Profile, vs: seq<VoiceView>, a: nat, b: nat)
    requires ValidProfile(p)
    ensures Advance(p, Advance(p, vs, a), b) == Advance(p, vs, a + b)
  {
    forall i | 0 <= i < |vs|
      ensures Advance(p, Advance(p, vs, a), b)[i] == Advance(p, vs, a + b)[i]
    {
      RunAdditive(p, vs[i].env, a, b);
    }
  }

  /** For one voice: dropping it before the block if dead is the same as dropping
      it after the block if dead, because a dead voice stays dead. */
  lemma ReapAdvanceOne(p: Profile, x: VoiceView, n: nat)
    requires ValidProfile(p)
    ensures Reap(Advance(p, if x.env.dead then [] else [x], n)) == Reap(Advance(p, [x], n))
  {
    var y := Advanced(p, x, n);
    assert Advance(p, [x], n) == [y];
    assert [y][..0] == [];
    if x.env.dead {
      assert y.env.dead;
    }
  }

  /** A voice already dead stays dead over a block, so it makes no difference
      whether the dead are dropped before the block or after it. */
  lemma {:induction false} ReapBeforeAdvance(p: Profile, ws: seq<VoiceView>, n: nat)
    requires ValidProfile(p)
    ensures Reap(Advance(p, Reap(ws), n)) == Reap(Advance(p, ws, n))
    decreases |ws|
  {
    if ws != [] {
      var k := |ws| - 1;
      var front, x := ws[..k], ws[k];
      var tail := if x.env.dead then [] else [x];
      assert Reap(ws) == Reap(front) + tail;
      calc {
        Reap(Advance(p, Reap(ws), n));
      == { AdvanceConcat(p, Reap(front), tail, n); }
        Reap(Advance(p, Reap(front), n) + Advance(p, tail, n));
      == { ReapConcat(Advance(p, Reap(front), n), Advance(p, tail, n)); }
        Reap(Advance(p, Reap(front), n)) + Reap(Advance(p, tail, n));
      == { ReapBeforeAdvance(p, front, n); ReapAdvanceOne(p, x, n); }
        Reap(Advance(p, front, n)) + Reap(Advance(p, [x], n));
      == { ReapConcat(Advance(p, front, n), Advance(p, [x], n)); }
        Reap(Advance(p, front, n) + Advance(p, [x], n));
      == { AdvanceConcat(p, front, [x], n); assert front + [x] == ws; }
        Reap(Advance(p, ws, n));
      }
    }
  }

  /** Two consecutive audio callbacks leave the list one callback of their
      combined length would leave. */
  lemma RenderAdditive(p: Profile, vs: seq<VoiceView>, a: nat, b: nat)
    requires ValidProfile(p)
    ensures Render(p, Render(p, vs, a), b) == Render(p, vs, a + b)
  {
    ReapBeforeAdvance(p, Advance(p, vs, a), b);
    AdvanceAdditive(p, vs, a, b);
  }

  /** The list after consecutive audio callbacks of the given frame counts. */
  function RenderBlocks(p: Profile, vs: seq<VoiceView>, blocks: seq<nat>): (r: seq<VoiceView>)
    requires ValidProfile(p)
    ensures |r| <= |vs|
  {
    if blocks == [] then vs
    else Render(p, RenderBlocks(p, vs, blocks[..|blocks| - 1]), blocks[|blocks| - 1])
  }

  /** The number of frames in consecutive blocks. */
  function Total(blocks: seq<nat>): nat {
    if blocks == [] then 0 else Total(blocks[..|blocks| - 1]) + blocks[|blocks| - 1]
  }

  /** Blocks of equal size `n` hold `n` frames each. */
  lemma {:induction false} TotalOfEqual(blocks: seq<nat>, n: nat)
    requires forall i :: 0 <= i < |blocks| ==> blocks[i] == n
    ensures Total(blocks) == |blocks| * n
  {
    if blocks != [] {
      TotalOfEqual(blocks[..|blocks| - 1], n);
    }
  }

  /** Any non-empty run of callbacks leaves the list one long callback would. */
  lemma {:induction false} RenderBlocksIsOneBlock(p: Profile, vs: seq<VoiceView>, blocks: seq<nat>)
    requires ValidProfile(p) && |blocks| > 0
    ensures RenderBlocks(p, vs, blocks) == Render(p, vs, Total(blocks))
  {
    var k := |blocks| - 1;
    if k > 0 {
      RenderBlocksIsOneBlock(p, vs, blocks[..k]);
      RenderAdditive(p, vs, Total(blocks[..k]), blocks[k]);
    } else {
      assert blocks[..k] == [];
    }
  }

  /** Callbacks totalling at least release_time seconds empty a list in which
      every voice is releasing, however the frames are split into blocks. */
  lemma DrainInBlocks(p: Profile, vs: seq<VoiceView>, blocks: seq<nat>)
    requires ValidProfile(p) && AllValid(p, vs)
    requires forall i :: 0 <= i < |vs| ==> vs[i].env.stage == Release
    requires |blocks| > 0 && Total(blocks) as real >= p.releaseTime * p.fs
    ensures RenderBlocks(p, vs, blocks) == []
  {
    RenderBlocksIsOneBlock(p, vs, blocks);
    DrainEmpties(p, vs, Total(blocks));
  }

  /** Mixing voices that are all dead gives silence of the requested length. */
  lemma {:induction false} MixOfDeadIsSilence(p: Profile, vs: seq<VoiceView>, carriers: seq<seq<real>>, n: nat, k: nat)
    requires ValidProfile(p) && CarriersFit(vs, carriers, n) && AllValid(p, vs) && k <= |vs|
    requires forall i :: 0 <= i < |vs| ==> vs[i].env.dead
    ensures MixFirst(p, vs, carriers, n, k) == Silence(n)
  {
    if k > 0 {
      MixOfDeadIsSilence(p, vs, carriers, n, k - 1);
      DeadBlockSilent(p, vs[k - 1], carriers[k - 1]);
    }
  }

  /** Every mixed sample is the sum of the voices' samples at that index. */
  lemma {:induction false} MixIsSum(p: Profile, vs: seq<VoiceView>, carriers: seq<seq<real>>, n: nat, k: nat, i: nat)
    requires ValidProfile(p) && CarriersFit(vs, carriers, n) && k <= |vs| && i < n
    ensures MixFirst(p, vs, carriers, n, k)[i] == SumAt(p, vs, carriers, k, i)
  {
    if k > 0 {
      MixIsSum(p, vs, carriers, n, k - 1, i);
      BlockAt(p, vs[k - 1], carriers[k - 1], i);
    }
  }

  /** Sum over the first `k` voices of sample `i` of each voice's block: the
      carrier times the level after `i + 1` samples times velocity and gain. */
  function SumAt(p: Profile, vs: seq<VoiceView>, carriers: seq<seq<real>>, k: nat, i: nat): real
    requires ValidProfile(p) && |carriers| == |vs| && k <= |vs|
    requires forall j :: 0 <= j < |carriers| ==> i < |carriers[j]|
  {
    if k == 0 then 0.0
    else
      SumAt(p, vs, carriers, k - 1, i) + Sample(carriers[k - 1][i], Run(p, vs[k - 1].env, i + 1).level, vs[k - 1].velocity)
  }

  /** With carriers in [-1, 1] and velocities in [0, 1], the mix of `k` voices
      never exceeds the gain times `k`. */
  lemma {:induction false} MixBounded(p: Profile, vs: seq<VoiceView>, carriers: seq<seq<real>>, n: nat, k: nat)
    requires ValidProfile(p) && CarriersFit(vs, carriers, n) && AllValid(p, vs) && k <= |vs|
    requires forall j :: 0 <= j < |vs| ==> 0.0 <= vs[j].velocity <= 1.0
    requires forall j, i :: 0 <= j < |vs| && 0 <= i < n ==> -1.0 <= carriers[j][i] <= 1.0
    ensures forall i :: 0 <= i < n ==>
      -(k as real) * Gain <= MixFirst(p, vs, carriers, n, k)[i] <= k as real * Gain
  {
    if k > 0 {
      MixBounded(p, vs, carriers, n, k - 1);
      BlockBounded(p, vs[k - 1], carriers[k - 1]);
    }
  }

  // ---- event dispatch ----

  /** The MIDI messages the player reacts to; anything else is ignored. */
  datatype Message = NoteOnMsg(note: int, velocity: nat) | NoteOffMsg(note: int) | OtherMsg

  /** One message of `play_midi`; `noteToFreq` stands for the equal-tempered note frequency. */
  function Dispatch(p: Profile, vs: seq<VoiceView>, msg: Message, noteToFreq: int -> real): (r: seq<VoiceView>)
    requires ValidProfile(p)
    ensures |vs| <= |r| <= |vs| + 1
    ensures !(msg.NoteOnMsg? && msg.velocity > 0) ==> |r| == |vs|
  {
    match msg
    case NoteOnMsg(note, velocity) =>
      if velocity > 0 then NoteOn(p, vs, noteToFreq(note), velocity)
      else ReleaseMatching(vs, noteToFreq(note))
    case NoteOffMsg(note) => ReleaseMatching(vs, noteToFreq(note))
    case OtherMsg => vs
  }

  /** The list after the messages, in order. */
  function Replay(p: Profile, vs: seq<VoiceView>, msgs: seq<Message>, noteToFreq: int -> real): (r: seq<VoiceView>)
    requires ValidProfile(p)
    ensures |vs| <= |r| <= |vs| + |msgs|
  {
    if msgs == [] then vs
    else
      var k := |msgs| - 1;
      Dispatch(p, Replay(p, vs, msgs[..k], noteToFreq), msgs[k], noteToFreq)
  }

  /** A whole playback: every message, then the final release. */
  function Session(p: Profile, vs: seq<VoiceView>, msgs: seq<Message>, noteToFreq: int -> real): (r: seq<VoiceView>)
    requires ValidProfile(p)
    ensures |vs| <= |r| <= |vs| + |msgs|
    ensures forall i :: 0 <= i < |r| ==> r[i].env.stage == Release
  {
    ReleaseAll(Replay(p, vs, msgs, noteToFreq))
  }

  lemma DispatchKeeps(p: Profile, vs: seq<VoiceView>, msg: Message, noteToFreq: int -> real)
    requires ValidProfile(p) && AllValid(p, vs) && WithinCap(p, |vs|)
    ensures AllValid(p, Dispatch(p, vs, msg, noteToFreq))
    ensures WithinCap(p, |Dispatch(p, vs, msg, noteToFreq)|)
  {
    match msg
    case NoteOnMsg(note, velocity) =>
      NoteOnKeepsValid(p, vs, noteToFreq(note), velocity);
      ReleasedKeepsValid(p, vs, noteToFreq(note));
    case NoteOffMsg(note) =>
      ReleasedKeepsValid(p, vs, noteToFreq(note));
    case OtherMsg =>
  }

  /** However many messages arrive, the list never exceeds the ceiling and every
      envelope stays valid. */
  lemma {:induction false} ReplayWithinCap(p: Profile, vs: seq<VoiceView>, msgs: seq<Message>, noteToFreq: int -> real)
    requires ValidProfile(p) && AllValid(p, vs) && WithinCap(p, |vs|)
    ensures AllValid(p, Replay(p, vs, msgs, noteToFreq))
    ensures WithinCap(p, |Replay(p, vs, msgs, noteToFreq)|)
  {
    if msgs != [] {
      var k := |msgs| - 1;
      ReplayWithinCap(p, vs, msgs[..k], noteToFreq);
      DispatchKeeps(p, Replay(p, vs, msgs[..k], noteToFreq), msgs[k], noteToFreq);
    }
  }

  /** Without a ceiling, every note-on with positive velocity adds exactly one voice
      and nothing ever removes one while messages are handled. */
  lemma {:induction false} UncappedReplayLength(p: Profile, vs: seq<VoiceView>, msgs: seq<Message>, noteToFreq: int -> real)
    requires ValidProfile(p) && p.maxVoices == Unlimited
    ensures |Replay(p, vs, msgs, noteToFreq)| == |vs| + NoteOnCount(msgs)
  {
    if msgs != [] {
      var k := |msgs| - 1;
      UncappedReplayLength(p, vs, msgs[..k], noteToFreq);
      assert msgs == msgs[..k] + [msgs[k]];
      NoteOnCountConcat(msgs[..k], [msgs[k]]);
    }
  }

  function NoteOnCount(msgs: seq<Message>): nat {
    if msgs == [] then 0
    else (if msgs[0].NoteOnMsg? && msgs[0].velocity > 0 then 1 else 0) + NoteOnCount(msgs[1..])
  }

  lemma {:induction false} NoteOnCountConcat(a: seq<Message>, b: seq<Message>)
    ensures NoteOnCount(a + b) == NoteOnCount(a) + NoteOnCount(b)
  {
    if a != [] {
      assert (a + b)[1..] == a[1..] + b;
      NoteOnCountConcat(a[1..], b);
    } else {
      assert a + b == b;
    }
  }

  /** At the end of a session every voice is releasing, within the ceiling and valid,
      so audio callbacks totalling release_time seconds afterwards leave the list empty. */
  lemma SessionEnds(p: Profile, vs: seq<VoiceView>, msgs: seq<Message>, noteToFreq: int -> real, blocks: seq<nat>)
    requires ValidProfile(p) && AllValid(p, vs) && WithinCap(p, |vs|)
    requires |blocks| > 0 && Total(blocks) as real >= p.releaseTime * p.fs
    ensures var r := Session(p, vs, msgs, noteToFreq);
      WithinCap(p, |r|) && AllValid(p, r) &&
      (forall i :: 0 <= i < |r| ==> r[i].env.stage == Release) &&
      RenderBlocks(p, r, blocks) == []
  {
    var played := Replay(p, vs, msgs, noteToFreq);
    ReplayWithinCap(p, vs, msgs, noteToFreq);
    ReleasedKeepsValid(p, played, 0.0);
    ReleaseAllEffect(played);
    DrainInBlocks(p, Session(p, vs, msgs, noteToFreq), blocks);
  }

  // ---- the two threads interleaved ----

  /** What can happen to the list next: the playback loop handles a message, or
      the audio device asks for a block of `frames` frames. */
  datatype Event = Midi(msg: Message) | Callback(frames: nat)

  /** One event, as the locked region that handles it. */
  function Handle(p: Profile, vs: seq<VoiceView>, ev: Event, noteToFreq: int -> real): (r: seq<VoiceView>)
    requires ValidProfile(p)
    ensures ev.Callback? ==> |r| <= |vs|
    ensures ev.Midi? ==> |vs| <= |r| <= |vs| + 1
  {
    match ev
    case Midi(msg) => Dispatch(p, vs, msg, noteToFreq)
    case Callback(frames) => Render(p, vs, frames)
  }

  /** The list after the events, in the order the lock admitted them. */
  function Schedule(p: Profile, vs: seq<VoiceView>, evs: seq<Event>, noteToFreq: int -> real): seq<VoiceView>
    requires ValidProfile(p)
  {
    if evs == [] then vs
    else
      var k := |evs| - 1;
      Handle(p, Schedule(p, vs, evs[..k], noteToFreq), evs[k], noteToFreq)
  }

  /** However the playback loop and the audio callbacks interleave, the list never
      exceeds the ceiling and every envelope stays valid. */
  lemma {:induction false} ScheduleKeeps(p: Profile, vs: seq<VoiceView>, evs: seq<Event>, noteToFreq: int -> real)
    requires ValidProfile(p) && AllValid(p, vs) && WithinCap(p, |vs|)
    ensures AllValid(p, Schedule(p, vs, evs, noteToFreq))
    ensures WithinCap(p, |Schedule(p, vs, evs, noteToFreq)|)
  {
    if evs != [] {
      var k := |evs| - 1;
      var before := Schedule(p, vs, evs[..k], noteToFreq);
      ScheduleKeeps(p, vs, evs[..k], noteToFreq);
      match evs[k]
      case Midi(msg) =>
        DispatchKeeps(p, before, msg, noteToFreq);
      case Callback(frames) =>
        RenderProperties(p, before, frames);
    }
  }

  /** The number of note-ons with positive velocity among the events. */
  function NoteOnEvents(evs: seq<Event>): nat {
    if evs == [] then 0
    else
      NoteOnEvents(evs[..|evs| - 1]) +
      (if evs[|evs| - 1].Midi? && evs[|evs| - 1].msg.NoteOnMsg? && evs[|evs| - 1].msg.velocity > 0 then 1 else 0)
  }

  /** Under any interleaving the list never holds more voices than it started
      with plus the note-ons handled so far: only note-ons add a voice. */
  lemma {:induction false} ScheduleGrowth(p: Profile, vs: seq<VoiceView>, evs: seq<Event>, noteToFreq: int -> real)
    requires ValidProfile(p)
    ensures |Schedule(p, vs, evs, noteToFreq)| <= |vs| + NoteOnEvents(evs)
  {
    if evs != [] {
      var k := |evs| - 1;
      ScheduleGrowth(p, vs, evs[..k], noteToFreq);
    }
  }
}
