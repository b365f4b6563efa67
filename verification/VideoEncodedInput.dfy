/** video_encoded_input.c: packets go into a decoder that emits frames in timestamp order and may drop
    some, and every frame must get the information of the packet it was made from. Lookups purge older
    entries, so that dropped frames do not pile up in the queue. */
module VideoEncodedInput {
  import opened FrameInfoQueue
  import opened Matching
  import opened Wrappers

  /** Any decoder that emits timestamps it was given in non-decreasing order, each at most as often as
      it was given, possibly dropping some without a word. */
  class Decoder {
    var pending: multiset<int>
    var last: Option<int>
    ghost var given: seq<Option<int>>   // the packets and drain calls it got
    ghost var emitted: seq<int>         // the timestamps of its frames
    ghost var yielded: bool             // whether its last call yielded one

    constructor ()
      ensures pending == multiset{} && last == None && given == [] && emitted == []
    {
      pending, last := multiset{}, None;
      given, emitted, yielded := [], [], false;
    }

    // avcodec_decode_video2; None stands for the drain packet, and for "no frame" or an error
    method Decode(packet: Option<int>) returns (frame: Option<int>)
      modifies this
      ensures given == old(given) + [packet] && yielded == frame.Some?
      ensures var all := old(pending) + (if packet.Some? then multiset{packet.value} else multiset{});
              match frame
              case Some(pts) =>
                && pts in all && Upcoming(pts, old(last)) && pending <= all - multiset{pts}
                && last == Some(pts) && emitted == old(emitted) + [pts]
              case None => pending <= all && last == old(last) && emitted == old(emitted)
      ensures packet.None? ==> |pending| + (if frame.Some? then 1 else 0) <= |old(pending)|
    {
      var all := pending + (if packet.Some? then multiset{packet.value} else multiset{});
      var left := all;
      frame := None;
      var ready := *;
      if ready {
        if pts :| pts in all && Upcoming(pts, last) {
          left := all - multiset{pts};
          frame, last := Some(pts), Some(pts);
          emitted := emitted + [pts];
        }
      }
      given, yielded := given + [packet], frame.Some?;
      pending := Drop(left);
      SubsetIsSmaller(pending, left);
    }

    static method Drop(given: multiset<int>) returns (left: multiset<int>)
      ensures left <= given
    {
      left := given;
      var dropping := *;
      while dropping && |left| > 0
        invariant left <= given
        decreases |left|, dropping
      {
        if pts :| pts in left {
          left := left - multiset{pts};
        } else {
          break;
        }
        dropping := *;
      }
    }
  }

  class VideoEncodedInput {
    const queue: Queue
    const decoder: Decoder
    const delays: bool                // CODEC_CAP_DELAY
    var sent: seq<Entry>              // frames sent into the graph: timestamp, information
    ghost var received: seq<Entry>    // packets received, likewise
    ghost var places: seq<nat>        // where the queued entries are among them
    ghost var matched: int            // and where the packet of the latest frame is

    ghost function Repr(): set<object>
      reads this, queue
    {
      {this, queue, decoder} + queue.Nodes()
    }

    ghost function Books(): Ledger
      reads this, queue, decoder
    {
      Ledger(sent, queue.contents, received, places, matched, decoder.emitted)
    }

    /** The queue has what the decoder may still emit, and nothing older than the latest frame that was
        received before that frame's packet: entries of dropped frames do not pile up. */
    ghost predicate Valid()
      reads this, queue, decoder, queue.spine
    {
      queue.Valid() && InOrder(Books(), decoder.pending, decoder.last)
    }

    constructor (delays: bool)
      ensures Valid() && fresh(Repr()) && received == sent == [] && this.delays == delays
      ensures decoder.given == []
    {
      queue := new Queue();
      decoder := new Decoder();
      this.delays := delays;
      sent, received, places, matched := [], [], [], -1;
    }

    // decode
    method Decode(packet: Option<int>) returns (gotFrame: bool)
      requires queue.Valid()
      requires InOrder(Books(), decoder.pending + (if packet.Some? then multiset{packet.value} else multiset{}),
                       decoder.last)
      modifies Repr()
      ensures Valid() && fresh(Repr() - old(Repr())) && received == old(received)
      ensures decoder.given == old(decoder.given) + [packet] && decoder.yielded == gotFrame
      ensures if gotFrame then |sent| == |old(sent)| + 1 && old(sent) <= sent else sent == old(sent)
      ensures if gotFrame then Purged(old(queue.contents), queue.contents, sent[|sent| - 1])
              else queue.contents == old(queue.contents)
      ensures packet.None? ==> |decoder.pending| + (if gotFrame then 1 else 0) <= |old(decoder.pending)|
    {
      ghost var given := decoder.pending + (if packet.Some? then multiset{packet.value} else multiset{});
      ghost var books, last := Books(), decoder.last;
      var frame := decoder.Decode(packet);
      gotFrame := frame.Some?;
      if frame.Some? {
        AddFrameInfoToFrame(frame.value, books, given, last);
      } else {
        DropInOrder(books, given, decoder.pending, last);
      }
    }

    // add_frame_info_to_frame and send_to_graph: the lookup always finds its entry, so its failure exit is
    // never taken
    method AddFrameInfoToFrame(pts: int, ghost books: Ledger, ghost given: multiset<int>, ghost last: Option<int>)
      requires queue.Valid() && InOrder(books, given, last) && pts in given && Upcoming(pts, last)
      requires books == Books().(emitted := books.emitted) && decoder.emitted == books.emitted + [pts]
      requires decoder.pending <= given - multiset{pts}
      modifies this`sent, this`places, this`matched, queue, queue.Nodes()
      ensures queue.Valid() && queue.Nodes() <= old(queue.Nodes())
      ensures InOrder(Books(), decoder.pending, Some(pts))
      ensures |sent| == |old(sent)| + 1 && old(sent) <= sent
      ensures Purged(old(queue.contents), queue.contents, sent[|sent| - 1])
    {
      ghost var after := EmitInOrder(books, given, decoder.pending, last, pts);
      TakeAndSend(pts, after);
    }

    method TakeAndSend(pts: int, ghost after: Ledger)
      requires queue.Valid() && Lookup(queue.contents, pts, true).0.Some?
      requires var (found, left) := Lookup(queue.contents, pts, true);
               after == Ledger(sent + [Entry(pts, found.value)], left, received, after.places, after.matched,
                               decoder.emitted)
      modifies this`sent, this`places, this`matched, queue, queue.Nodes()
      ensures queue.Valid() && queue.Nodes() <= old(queue.Nodes())
      ensures Books() == after
    {
      var info := queue.GetFrameInfo(pts, true);
      sent := sent + [Entry(pts, info.value)];
      places, matched := after.places, after.matched;
    }

    // queue_frame_info
    method QueueFrameInfo(pts: int, buffer: seq<int>)
      requires Valid()
      modifies this`places, this`received, queue, queue.Nodes()
      ensures queue.Valid() && fresh(queue.Nodes() - old(queue.Nodes()))
      ensures InOrder(Books(), decoder.pending + multiset{pts}, decoder.last)
      ensures queue.contents == old(queue.contents) + [Entry(pts, FrameInfo({}, buffer))]
      ensures received == old(received) + [Entry(pts, FrameInfo({}, buffer))]
    {
      var info := FrameInfo({}, buffer);
      ghost var books := Receive(Books(), Entry(pts, info));
      ReceiveInOrder(Books(), decoder.pending, decoder.last, Entry(pts, info));
      queue.Add(pts, info);
      places, received := books.places, books.received;
      assert Books() == books;
    }

    // process
    method Process(pts: int, buffer: seq<int>)
      requires Valid()
      modifies Repr()
      ensures Valid() && fresh(Repr() - old(Repr()))
      ensures received == old(received) + [Entry(pts, FrameInfo({}, buffer))]
      ensures decoder.given == old(decoder.given) + [Some(pts)]
      ensures sent == old(sent) || (|sent| == |old(sent)| + 1 && old(sent) <= sent)
      ensures var all := old(queue.contents) + [Entry(pts, FrameInfo({}, buffer))];
              if sent == old(sent) then queue.contents == all else Purged(all, queue.contents, sent[|sent| - 1])
      ensures multiset(sent) <= multiset(received)
    {
      QueueFrameInfo(pts, buffer);
      ghost var all := queue.contents;
      var gotFrame := Decode(Some(pts));
      assert gotFrame ==> Purged(all, queue.contents, sent[|sent| - 1]);
      InOrderCounts(Books(), decoder.pending, decoder.last);
    }

    // flush, up to flush_graph
    method Flush()
      requires Valid()
      modifies Repr()
      ensures Valid() && fresh(Repr() - old(Repr()))
      ensures received == old(received) && old(sent) <= sent
      ensures if delays then
                && Drained(old(decoder.given), decoder.given) && !decoder.yielded
                && |decoder.given| - |old(decoder.given)| == |sent| - |old(sent)| + 1
              else decoder.given == old(decoder.given) && sent == old(sent)
      ensures forall p :: OnlyPts(sent, p) <= OnlyPts(received, p)
      ensures multiset(sent) <= multiset(received)
    {
      if delays {
        var got := true;
        while got
          invariant Valid() && fresh(Repr() - old(Repr()))
          invariant received == old(received) && old(sent) <= sent
          invariant decoder.given == old(decoder.given) || Drained(old(decoder.given), decoder.given)
          invariant |decoder.given| - |old(decoder.given)| == |sent| - |old(sent)| + (if got then 0 else 1)
          invariant !got ==> Drained(old(decoder.given), decoder.given) && !decoder.yielded
          decreases |decoder.pending|, got
        {
          DrainNext(old(decoder.given), decoder.given);
          got := Decode(None);
        }
      }
      InOrderCounts(Books(), decoder.pending, decoder.last);
    }
  }

  lemma SubsetIsSmaller(a: multiset<int>, b: multiset<int>)
    requires a <= b
    ensures |a| <= |b|
  {
    assert b == a + (b - a);
  }
}
