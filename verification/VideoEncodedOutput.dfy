/** video_encoded_output.c: frames go into an encoder that may delay and reorder them, and every packet
    that comes out must get the information of the frame it was made from. */
module VideoEncodedOutput {
  import opened FrameInfoQueue
  import opened Matching
  import opened Wrappers

  /** Any encoder whose calls succeed: it gives each timestamp it was given back exactly once, in any
      order and with any delay, and when it is drained it only stops once it is empty. */
  class Encoder {
    var pending: multiset<int>
    ghost var given: seq<Option<int>>   // the frames and drain calls it got
    ghost var emitted: seq<int>         // the timestamps of its packets

    constructor ()
      ensures pending == multiset{} && given == [] && emitted == []
    {
      pending := multiset{};
      given, emitted := [], [];
    }

    // avcodec_encode_video2; None stands for the drain call and for "no packet"
    method Encode(frame: Option<int>) returns (packet: Option<int>)
      modifies this
      ensures given == old(given) + [frame]
      ensures var all := old(pending) + (if frame.Some? then multiset{frame.value} else multiset{});
              match packet
              case Some(pts) => pts in all && pending == all - multiset{pts} && emitted == old(emitted) + [pts]
              case None => pending == all && (frame.None? ==> all == multiset{}) && emitted == old(emitted)
    {
      given := given + [frame];
      if frame.Some? {
        pending := pending + multiset{frame.value};
      }
      packet := None;
      var ready := *;
      if ready || frame.None? {
        if pts :| pts in pending {
          pending := pending - multiset{pts};
          emitted := emitted + [pts];
          packet := Some(pts);
        } else {
          assert forall pts :: pts !in pending;
          assert pending == multiset{};
        }
      }
    }
  }

  class VideoEncodedOutput {
    const queue: Queue
    const encoder: Encoder
    var haveEncodedFrames: bool
    var sent: seq<Entry>              // packets written: timestamp in the codec's timebase, information
    ghost var accepted: seq<Entry>    // frames received, likewise

    ghost function Repr(): set<object>
      reads this, queue
    {
      {this, queue, encoder} + queue.Nodes()
    }

    /** The queue holds the information of exactly the frames the encoder still has, and for every
        timestamp the packets sent and the queue together are the frames received, in order. */
    ghost predicate Valid()
      reads this, queue, encoder, queue.spine
    {
      && queue.Valid()
      && InStep(encoder.pending, queue.contents)
      && Matches(sent, queue.contents, accepted)
      && Follows(sent, encoder.emitted)
      && (!haveEncodedFrames ==> encoder.pending == multiset{})
    }

    constructor ()
      ensures Valid() && fresh(Repr()) && accepted == sent == [] && encoder.given == [] && !haveEncodedFrames
    {
      queue := new Queue();
      encoder := new Encoder();
      haveEncodedFrames := false;
      sent, accepted := [], [];
    }

    // encode
    method Encode(frame: Option<int>) returns (gotPacket: bool)
      requires queue.Valid() && Matches(sent, queue.contents, accepted) && Follows(sent, encoder.emitted)
      requires InStep(encoder.pending + (if frame.Some? then multiset{frame.value} else multiset{}), queue.contents)
      modifies Repr()
      ensures Valid() && fresh(Repr() - old(Repr())) && accepted == old(accepted) && haveEncodedFrames
      ensures encoder.given == old(encoder.given) + [frame]
      ensures if gotPacket then |sent| == |old(sent)| + 1 && old(sent) <= sent else sent == old(sent)
      ensures frame.None? ==>
        if gotPacket then |encoder.pending| < |old(encoder.pending)| else encoder.pending == multiset{}
    {
      haveEncodedFrames := true;
      ghost var emitted := encoder.emitted;
      ghost var given := encoder.pending + (if frame.Some? then multiset{frame.value} else multiset{});
      var packet := encoder.Encode(frame);
      gotPacket := packet.Some?;
      if packet.Some? {
        Deliver(packet.value, given, emitted);
      }
    }

    // the part of encode that deals with a packet: the lookup always finds its entry, so its failure exit
    // is never taken
    method Deliver(pts: int, ghost given: multiset<int>, ghost emitted: seq<int>)
      requires queue.Valid() && Matches(sent, queue.contents, accepted) && InStep(given, queue.contents) && pts in given
      requires Follows(sent, emitted)
      modifies this`sent, queue, queue.Nodes()
      ensures queue.Valid() && queue.Nodes() <= old(queue.Nodes())
      ensures Matches(sent, queue.contents, accepted) && InStep(given - multiset{pts}, queue.contents)
      ensures |sent| == |old(sent)| + 1 && old(sent) <= sent
      ensures Follows(sent, emitted + [pts])
    {
      SendKeepsMatch(sent, queue.contents, accepted, given, pts);
      var info := queue.GetFrameInfo(pts, false);
      assert info.Some?;
      FollowsNext(sent, emitted, Entry(pts, info.value));
      sent := sent + [Entry(pts, info.value)];
    }

    // process: `pts` is the frame's timestamp rescaled to the codec's timebase
    method Process(pts: int, info: FrameInfo)
      requires Valid()
      modifies Repr()
      ensures Valid() && fresh(Repr() - old(Repr()))
      ensures accepted == old(accepted) + [Entry(pts, info)] && haveEncodedFrames
      ensures encoder.given == old(encoder.given) + [Some(pts)]
      ensures sent == old(sent) || (|sent| == |old(sent)| + 1 && old(sent) <= sent)
    {
      ReceiveKeepsMatch(sent, queue.contents, accepted, Entry(pts, info));
      ReceiveKeepsInStep(encoder.pending, queue.contents, Entry(pts, info));
      queue.Add(pts, info);
      accepted := accepted + [Entry(pts, info)];
      var _ := Encode(Some(pts));
    }

    // flush: afterwards every frame has come out once, with its own information
    method Flush()
      requires Valid()
      modifies Repr()
      ensures Valid() && fresh(Repr() - old(Repr()))
      ensures accepted == old(accepted) && old(sent) <= sent
      ensures queue.contents == [] && encoder.pending == multiset{} && haveEncodedFrames == old(haveEncodedFrames)
      ensures if old(haveEncodedFrames) then
                && Drained(old(encoder.given), encoder.given)
                && |encoder.given| - |old(encoder.given)| == |sent| - |old(sent)| + 1
              else encoder.given == old(encoder.given) && sent == old(sent)
      ensures forall p :: OnlyPts(sent, p) == OnlyPts(accepted, p)
      ensures multiset(sent) == multiset(accepted)
    {
      if haveEncodedFrames {
        var got := true;
        while got
          invariant Valid() && fresh(Repr() - old(Repr()))
          invariant accepted == old(accepted) && old(sent) <= sent
          invariant haveEncodedFrames && (!got ==> encoder.pending == multiset{})
          invariant encoder.given == old(encoder.given) || Drained(old(encoder.given), encoder.given)
          invariant !got ==> Drained(old(encoder.given), encoder.given)
          invariant |encoder.given| - |old(encoder.given)| == |sent| - |old(sent)| + (if got then 0 else 1)
          decreases |encoder.pending|, got
        {
          DrainNext(old(encoder.given), encoder.given);
          got := Encode(None);
        }
      }
      DrainedIsComplete(sent, queue.contents, accepted);
    }
  }
}
