/** In-place audio noise: the sample loop of the AudioBuffer(AudioBus*) constructor and the channel and sample
    loops over an offline-rendered buffer.  Samples are reals: float rounding is not modelled. */
module AudioNoise {

  import opened Noise
  import opened Selection

  /** What the loops add to sample `s` of a channel of `length` samples. */
  function SampleNoise(s: nat, channel: nat, length: nat): real {
    if SampleSelected(s, channel) then PureCloakFloatNoise(0, ToWord(s + channel * length)) else 0.0
  }

  /** The noise loop over one channel. */
  method ApplyToChannel(data: array<real>, channel: nat)
    modifies data
    ensures forall s :: 0 <= s < data.Length ==> data[s] == old(data[s]) + SampleNoise(s, channel, data.Length)
  {
    hide PureCloakFloatNoise, SampleSelected, ToWord;
    var s := 0;
    while s < data.Length
      invariant 0 <= s <= data.Length
      invariant forall k :: 0 <= k < data.Length ==>
                  data[k] == old(data[k]) + if k < s then SampleNoise(k, channel, data.Length) else 0.0
    {
      if SampleSelected(s, channel) {
        data[s] := data[s] + PureCloakFloatNoise(0, ToWord(s + channel * data.Length));
      }
      s := s + 1;
    }
  }

  /** `AudioBuffer(AudioBus*)` for one channel: copy the bus samples, then add the noise. */
  method ChannelFromBus(bus: seq<real>, channel: nat) returns (data: array<real>)
    ensures fresh(data) && data.Length == |bus|
    ensures forall s :: 0 <= s < |bus| ==> data[s] == bus[s] + SampleNoise(s, channel, |bus|)
  {
    data := new real[|bus|](i requires 0 <= i < |bus| => bus[i]);
    ApplyToChannel(data, channel);
  }

  /** The nested loops of `OfflineAudioContext::FireCompletionEvent`; a channel without data is skipped. */
  method ApplyToRenderedBuffer(channels: seq<array?<real>>)
    requires forall i, j :: 0 <= i < j < |channels| && channels[i] != null ==> channels[i] != channels[j]
    modifies channels
    ensures forall ch, s :: 0 <= ch < |channels| && channels[ch] != null && 0 <= s < channels[ch].Length ==>
              channels[ch][s] == old(channels[ch][s]) + SampleNoise(s, ch, channels[ch].Length)
  {
    hide SampleNoise;
    var ch := 0;
    while ch < |channels|
      invariant 0 <= ch <= |channels|
      invariant forall k, s :: 0 <= k < |channels| && channels[k] != null && 0 <= s < channels[k].Length ==>
                  channels[k][s] == old(channels[k][s]) + if k < ch then SampleNoise(s, k, channels[k].Length) else 0.0
    {
      var data := channels[ch];
      if data != null {
        ApplyToChannel(data, ch);
      }
      ch := ch + 1;
    }
  }

  /** Every sample moves by at most 0.00005, half the documented bound, and in any 97 consecutive samples of a
      channel at most one moves. */
  lemma NoiseIsInaudible(s: nat, s': nat, channel: nat, length: nat)
    ensures -0.00005 <= SampleNoise(s, channel, length) < 0.00005
    ensures s < s' < s + SAMPLE_PERIOD ==>
              SampleNoise(s, channel, length) == 0.0 || SampleNoise(s', channel, length) == 0.0
  {
    hide PureCloakFloatNoise, SampleSelected, ToWord;
    FloatNoiseBounds(0, ToWord(s + channel * length));
    OneSamplePerWindow(s, channel);
  }

  /** Which noise a selected sample gets: sample s of a channel uses index s + channel * length of the stream of seed 0,
      modulo 2^32. */
  lemma SampleNoiseIndex(s: nat, channel: nat, length: nat)
    ensures SampleNoise(s, channel, length) * 2560000.0
            == if (s * 1009 + channel * 3049) % 97 == 0
               then PureCloakNoise(0, (s + channel * length) % 0x1_0000_0000) as real
               else 0.0
  {
    hide PureCloakNoise, PureCloakFloatNoise;
    FloatNoiseBounds(0, (s + channel * length) % 0x1_0000_0000);
  }
}
