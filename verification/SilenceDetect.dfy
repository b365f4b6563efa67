/** audio_silence_detect.c after a frame's level has been compared with the noise threshold. */
module SilenceDetect {
  import opened FrameInfoQueue
  import H = Hysteresis

  class SilenceDetect {
    const silenceThreshold: nat       // silence_sample_count_threshold
    const noiseThreshold: nat         // noise_sample_count_threshold
    var silenceCounter: nat
    var noiseCounter: nat
    var silent: bool
    ghost var history: seq<H.Event>

    /** The fields are what the state machine makes of all frames so far. */
    ghost predicate Valid()
      reads this
    {
      H.Counters(silenceCounter, noiseCounter, silent) 
        == H.Run(H.Limits(on := silenceThreshold, off := noiseThreshold), history)
    }

    // init, and the thresholds that the first frame fixes
    constructor (silenceThreshold: nat, noiseThreshold: nat)
      ensures Valid() && history == [] && silent
      ensures this.silenceThreshold == silenceThreshold && this.noiseThreshold == noiseThreshold
    {
      this.silenceThreshold, this.noiseThreshold := silenceThreshold, noiseThreshold;
      silenceCounter, noiseCounter, silent := 0, 0, true;
      history := [];
    }

    // process
    method Process(isSilence: bool, nbSamples: nat, info: FrameInfo) returns (out: FrameInfo)
      requires Valid()
      modifies this
      ensures Valid() && history == old(history) + [H.Event(isSilence, nbSamples)]
      ensures silenceCounter <= silenceThreshold && noiseCounter <= noiseThreshold
      ensures nbSamples > (if isSilence then silenceThreshold else noiseThreshold) ==> silent == isSilence
      ensures out == info.(flags := info.flags + (if silent then {Silent} else {}))
    {
      if isSilence {
        silenceCounter := silenceCounter + nbSamples;
        if silenceCounter > silenceThreshold {
          silenceCounter := 0;
          noiseCounter := 0;
          silent := true;
        }
      } else {
        noiseCounter := noiseCounter + nbSamples;
        if noiseCounter > noiseThreshold {
          noiseCounter := 0;
          silenceCounter := 0;
          silent := false;
        }
      }
      ghost var limits := H.Limits(silenceThreshold, noiseThreshold);
      H.RunSnoc(limits, H.START, history, H.Event(isSilence, nbSamples));
      history := history + [H.Event(isSilence, nbSamples)];
      ghost var _, _ := H.FlagIsLastWinner(limits, history);
      out := info.(flags := info.flags + (if silent then {Silent} else {}));
    }
  }
}
