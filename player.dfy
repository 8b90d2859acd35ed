// `MidiFMPlayer`: the voice list shared by the event thread and the audio
// callback. Each region the original guards with its lock is one method here;
// their effect on the list is stated through the value model of module VoicePool.

module Player {
  import opened Envelope
  import opened Voice
  import VoicePool

  /** The values of a list of voice objects, in order. */
  ghost function ViewsOf(vs: seq<FMVoice>): (r: seq<VoiceView>)
    reads vs
    ensures |r| == |vs|
  {
    seq(|vs|, i requires 0 <= i < |vs| reads vs => vs[i].View())
  }

  /** The objects among the first `k` of `vs` whose envelope in `views` is not dead, in their order. */
  function KeepFirst(vs: seq<FMVoice>, views: seq<VoiceView>, k: nat): (r: seq<FMVoice>)
    requires |vs| == |views| && k <= |vs|
    ensures |r| <= k
    ensures (forall i :: 0 <= i < k ==> !views[i].env.dead) ==> r == vs[..k]
  {
    if k == 0 then []
    else KeepFirst(vs, views, k - 1) + (if views[k - 1].env.dead then [] else [vs[k - 1]])
  }

  /** The voice objects of `vs` whose envelope in `views` is not dead, in their order. */
  function Keep(vs: seq<FMVoice>, views: seq<VoiceView>): (r: seq<FMVoice>)
    requires |vs| == |views|
    ensures |r| <= |vs|
    ensures (forall i :: 0 <= i < |views| ==> !views[i].env.dead) ==> r == vs
  {
    assert vs[..|vs|] == vs;
    KeepFirst(vs, views, |vs|)
  }

  ghost predicate Distinct(vs: seq<FMVoice>) {
    forall i, j :: 0 <= i < j < |vs| ==> vs[i] != vs[j]
  }

  /** Keeping the live objects is keeping the live values. */
  lemma {:induction false} KeepViews(vs: seq<FMVoice>, views: seq<VoiceView>, k: nat)
    requires ViewsOf(vs) == views && k <= |vs|
    ensures ViewsOf(KeepFirst(vs, views, k)) == VoicePool.Reap(views[..k])
  {
    if k > 0 {
      KeepViews(vs, views, k - 1);
      assert views[..k][..k - 1] == views[..k - 1];
      var tail := if views[k - 1].env.dead then [] else [vs[k - 1]];
      assert ViewsOf(KeepFirst(vs, views, k - 1) + tail) ==
        ViewsOf(KeepFirst(vs, views, k - 1)) + ViewsOf(tail);
    }
  }

  /** The kept objects are distinct members of the list, and no more numerous. */
  lemma {:induction false} KeepSubset(vs: seq<FMVoice>, views: seq<VoiceView>, k: nat)
    requires |vs| == |views| && Distinct(vs) && k <= |vs|
    ensures |KeepFirst(vs, views, k)| <= k
    ensures forall v :: v in KeepFirst(vs, views, k) ==> v in vs[..k]
    ensures Distinct(KeepFirst(vs, views, k))
  {
    if k > 0 {
      KeepSubset(vs, views, k - 1);
      assert vs[k - 1] !in vs[..k - 1];
      assert forall v :: v in vs[..k - 1] ==> v in vs[..k];
    }
  }

  /** Keeping the live voices of a valid list of one profile gives a valid list again,
      whose values are the reaped values. */
  lemma KeepValid(vs: seq<FMVoice>, views: seq<VoiceView>, p: Profile)
    requires ViewsOf(vs) == views && Distinct(vs) && ValidProfile(p)
    requires forall k :: 0 <= k < |vs| ==> vs[k].profile == p
    requires VoicePool.AllValid(p, VoicePool.Reap(views))
    ensures var kept := Keep(vs, views);
      Distinct(kept) && |kept| <= |vs| && ViewsOf(kept) == VoicePool.Reap(views) &&
      forall k :: 0 <= k < |kept| ==> kept[k].profile == p && kept[k].Valid()
  {
    var kept := Keep(vs, views);
    KeepViews(vs, views, |vs|);
    KeepSubset(vs, views, |vs|);
    assert views[..|vs|] == views && vs[..|vs|] == vs;
    forall k | 0 <= k < |kept|
      ensures kept[k].profile == p && kept[k].Valid()
    {
      assert kept[k] in vs;
      assert kept[k].View() == ViewsOf(kept)[k];
    }
  }

  /** The first `i` voices of `current` have generated their block, the others not yet. */
  ghost predicate Generated(current: seq<FMVoice>, i: nat, before: seq<VoiceView>, after: seq<VoiceView>)
    reads current
    requires |before| == |current| && |after| == |current|
  {
    forall k :: 0 <= k < |current| ==> current[k].View() == if k < i then after[k] else before[k]
  }

  lemma AllGenerated(current: seq<FMVoice>, before: seq<VoiceView>, after: seq<VoiceView>)
    requires |before| == |current| && |after| == |current|
    requires Generated(current, |current|, before, after)
    ensures ViewsOf(current) == after
  {
  }

  /** The loop of the audio callback: every voice generates one block in list
      order, the blocks are summed into a fresh buffer, and the voices not dead
      afterwards are collected in order. */
  method GenerateEach(current: seq<FMVoice>, frames: nat, carriers: seq<seq<real>>, ghost p: Profile)
    returns (buffer: array<real>, newVoices: seq<FMVoice>)
    requires ValidProfile(p) && Distinct(current)
    requires forall k :: 0 <= k < |current| ==> current[k].profile == p && current[k].Valid()
    requires |carriers| == |current| && forall k :: 0 <= k < |carriers| ==> |carriers[k]| == frames
    modifies current
    ensures fresh(buffer)
    ensures ViewsOf(current) == VoicePool.Advance(p, old(ViewsOf(current)), frames)
    ensures buffer[..] == VoicePool.Mix(p, old(ViewsOf(current)), carriers, frames)
    ensures newVoices == Keep(current, VoicePool.Advance(p, old(ViewsOf(current)), frames))
  {
    ghost var before := ViewsOf(current);
    ghost var after := VoicePool.Advance(p, before, frames);
    assert VoicePool.AllValid(p, before);
    assert Generated(current, 0, before, after);
    buffer := new real[frames](_ => 0.0);
    newVoices := [];
    for i := 0 to |current|
      invariant Generated(current, i, before, after)
      invariant buffer[..] == VoicePool.MixFirst(p, before, carriers, frames, i)
      invariant newVoices == KeepFirst(current, after, i)
    {
      newVoices := GenerateStep(current, i, buffer, frames, carriers, p, before, after, newVoices);
    }
    AllGenerated(current, before, after);
  }

  /** One iteration of the callback's loop: voice `i` generates its block into the
      buffer and is appended to the survivors unless it is now dead. */
  method GenerateStep(current: seq<FMVoice>, i: nat, buffer: array<real>, frames: nat,
                      carriers: seq<seq<real>>, ghost p: Profile,
                      ghost before: seq<VoiceView>, ghost after: seq<VoiceView>, kept: seq<FMVoice>)
    returns (newVoices: seq<FMVoice>)
    requires ValidProfile(p) && Distinct(current) && i < |current|
    requires forall k :: 0 <= k < |current| ==> current[k].profile == p
    requires |before| == |current| && VoicePool.AllValid(p, before)
    requires after == VoicePool.Advance(p, before, frames)
    requires VoicePool.CarriersFit(before, carriers, frames) && buffer.Length == frames
    requires Generated(current, i, before, after)
    requires buffer[..] == VoicePool.MixFirst(p, before, carriers, frames, i)
    requires kept == KeepFirst(current, after, i)
    modifies current[i], buffer
    ensures Generated(current, i + 1, before, after)
    ensures buffer[..] == VoicePool.MixFirst(p, before, carriers, frames, i + 1)
    ensures newVoices == KeepFirst(current, after, i + 1)
  {
    var voice := current[i];
    assert voice.View() == before[i];
    label generating:
    var alive := GenerateInto(voice, buffer, frames, carriers[i]);
    forall k | 0 <= k < |current| && k != i
      ensures current[k].View() == old@generating(current[k].View())
    {
      assert current[k] != voice;
    }
    newVoices := kept;
    if alive {
      newVoices := newVoices + [voice];
    }
  }

  /** One pass of the callback's loop body: the voice generates its block, the
      block is added into the buffer, and the voice reports whether it is still alive. */
  method GenerateInto(voice: FMVoice, buffer: array<real>, frames: nat, carrier: seq<real>)
    returns (alive: bool)
    requires voice.Valid() && buffer.Length == frames && |carrier| == frames
    modifies voice, buffer
    ensures voice.Valid()
    ensures voice.View() == VoicePool.Advanced(voice.profile, old(voice.View()), frames)
    ensures buffer[..] == VoicePool.Add(old(buffer[..]), Block(voice.profile, old(voice.View()), carrier))
    ensures alive == !voice.View().env.dead
  {
    var block := voice.Generate(frames, carrier);
    Accumulate(buffer, block);
    alive := !voice.IsDead();
  }

  /** Writing the mono buffer to both channels of the device buffer. */
  method WriteStereo(outdata: array2<real>, buffer: seq<real>)
    requires outdata.Length0 == |buffer| && outdata.Length1 == 2
    modifies outdata
    ensures forall j :: 0 <= j < |buffer| ==> outdata[j, 0] == buffer[j] && outdata[j, 1] == buffer[j]
  {
    for j := 0 to |buffer|
      invariant forall i :: 0 <= i < j ==> outdata[i, 0] == buffer[i] && outdata[i, 1] == buffer[i]
    {
      outdata[j, 0] := buffer[j];
      outdata[j, 1] := buffer[j];
    }
  }

  /** `buffer += block`, sample by sample. */
  method Accumulate(buffer: array<real>, block: seq<real>)
    requires buffer.Length == |block|
    modifies buffer
    ensures buffer[..] == VoicePool.Add(old(buffer[..]), block)
  {
    for j := 0 to buffer.Length
      invariant forall i :: 0 <= i < j ==> buffer[i] == old(buffer[i]) + block[i]
      invariant forall i :: j <= i < buffer.Length ==> buffer[i] == old(buffer[i])
    {
      buffer[j] := buffer[j] + block[j];
    }
  }

  class MidiFMPlayer {
    const profile: Profile
    var voices: seq<FMVoice>

    ghost predicate Valid()
      reads this, voices
    {
      ValidProfile(profile) &&
      Distinct(voices) &&
      (forall i :: 0 <= i < |voices| ==> voices[i].profile == profile && voices[i].Valid()) &&
      VoicePool.WithinCap(profile, |voices|)
    }

    ghost function Views(): seq<VoiceView>
      reads this, voices
    {
      ViewsOf(voices)
    }

    constructor (p: Profile)
      requires ValidProfile(p)
      ensures Valid() && profile == p && voices == []
    {
      profile := p;
      voices := [];
    }

    /** The locked note-on region: add a voice if below the ceiling, else release the oldest. */
    method NoteOn(freq: real, velocity: int)
      requires Valid()
      modifies this, voices
      ensures Valid()
      ensures Views() == VoicePool.NoteOn(profile, old(Views()), freq, velocity)
      ensures |voices| == |old(voices)| + 1 ==>
        voices[..|old(voices)|] == old(voices) && fresh(voices[|old(voices)|])
      ensures |voices| != |old(voices)| + 1 ==> voices == old(voices)
    {
      if profile.maxVoices.Unlimited? || |voices| < profile.maxVoices.n {
        var voice := new FMVoice(profile, freq, velocity);
        voices := voices + [voice];
        assert Views() == old(Views()) + [voice.View()];
      } else {
        var oldest := voices[0];
        oldest.NoteOff();
        assert Views() == old(Views())[0 := VoicePool.Released(old(Views())[0])];
      }
    }

    /** The locked note-off region: release every voice within the tolerance of `freq`. */
    method ReleaseMatching(freq: real)
      requires Valid()
      modifies voices
      ensures Valid() && voices == old(voices)
      ensures Views() == VoicePool.ReleaseMatching(old(Views()), freq)
    {
      ghost var before := Views();
      for i := 0 to |voices|
        invariant Valid()
        invariant forall k :: 0 <= k < i ==>
          voices[k].View() == (if VoicePool.Matches(before[k], freq) then VoicePool.Released(before[k]) else before[k])
        invariant forall k :: i <= k < |voices| ==> voices[k].View() == before[k]
      {
        var v := voices[i];
        if VoicePool.Abs(v.freq - freq) < VoicePool.Tolerance {
          v.NoteOff();
        }
      }
    }

    /** The locked region at the end of playback: release every voice. */
    method ReleaseAll()
      requires Valid()
      modifies voices
      ensures Valid() && voices == old(voices)
      ensures Views() == VoicePool.ReleaseAll(old(Views()))
    {
      ghost var before := Views();
      for i := 0 to |voices|
        invariant Valid()
        invariant forall k :: 0 <= k < i ==> voices[k].View() == VoicePool.Released(before[k])
        invariant forall k :: i <= k < |voices| ==> voices[k].View() == before[k]
      {
        voices[i].NoteOff();
      }
    }

    /** The locked region of the audio callback: generate one block from every
        voice, sum the blocks, and keep the voices that are still alive, in order.
        `carriers[k]` stands for the oscillator samples of voice k for this block. */
    method MixAndReap(frames: nat, carriers: seq<seq<real>>) returns (buffer: array<real>)
      requires Valid()
      requires |carriers| == |voices| && forall k :: 0 <= k < |carriers| ==> |carriers[k]| == frames
      modifies this, voices
      ensures fresh(buffer) && Valid()
      ensures voices == Keep(old(voices), VoicePool.Advance(profile, old(Views()), frames))
      ensures Views() == VoicePool.Render(profile, old(Views()), frames)
      ensures buffer[..] == VoicePool.Mix(profile, old(Views()), carriers, frames)
    {
      ghost var before := Views();
      ghost var after := VoicePool.Advance(profile, before, frames);
      var newVoices;
      buffer, newVoices := GenerateEach(voices, frames, carriers, profile);
      VoicePool.RenderProperties(profile, before, frames);
      KeepValid(voices, after, profile);
      voices := newVoices;
    }

    /** The audio callback: mix and reap under the lock, then copy the mono mix
        to both channels of the device buffer. */
    method AudioCallback(outdata: array2<real>, frames: nat, carriers: seq<seq<real>>)
      requires Valid()
      requires |carriers| == |voices| && forall k :: 0 <= k < |carriers| ==> |carriers[k]| == frames
      requires outdata.Length0 == frames && outdata.Length1 == 2
      modifies this, voices, outdata
      ensures Valid()
      ensures voices == Keep(old(voices), VoicePool.Advance(profile, old(Views()), frames))
      ensures Views() == VoicePool.Render(profile, old(Views()), frames)
      ensures forall j :: 0 <= j < frames ==>
        outdata[j, 0] == outdata[j, 1] == VoicePool.Mix(profile, old(Views()), carriers, frames)[j]
    {
      var buffer := MixAndReap(frames, carriers);
      WriteStereo(outdata, buffer[..]);
    }

    /** One message of the playback loop. */
    method HandleMessage(msg: VoicePool.Message, noteToFreq: int -> real)
      requires Valid()
      modifies this, voices
      ensures Valid()
      ensures Views() == VoicePool.Dispatch(profile, old(Views()), msg, noteToFreq)
      ensures forall i :: 0 <= i < |voices| ==> voices[i] in old(voices) || fresh(voices[i])
    {
      match msg
      case NoteOnMsg(note, velocity) =>
        if velocity > 0 {
          NoteOn(noteToFreq(note), velocity);
        } else {
          ReleaseMatching(noteToFreq(note));
        }
      case NoteOffMsg(note) =>
        ReleaseMatching(noteToFreq(note));
      case OtherMsg =>
    }

    /** The playback loop: every message in order, then the final release.
        `noteToFreq` stands for the equal-tempered note frequency. */
    method PlayMidi(msgs: seq<VoicePool.Message>, noteToFreq: int -> real)
      requires Valid()
      modifies this, voices
      ensures Valid()
      ensures Views() == VoicePool.Session(profile, old(Views()), msgs, noteToFreq)
    {
      ghost var before := Views();
      for i := 0 to |msgs|
        invariant Valid()
        invariant Views() == VoicePool.Replay(profile, before, msgs[..i], noteToFreq)
        invariant forall i :: 0 <= i < |voices| ==> voices[i] in old(voices) || fresh(voices[i])
      {
        HandleMessage(msgs[i], noteToFreq);
        assert msgs[..i + 1][..i] == msgs[..i];
      }
      assert msgs[..|msgs|] == msgs;
      ReleaseAll();
    }
  }
}
