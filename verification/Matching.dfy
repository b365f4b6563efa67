/** What a lookup does to the entries of one timestamp. The codec filters rest on these facts. */
module Matching {
  import opened FrameInfoQueue
  import opened Sequences
  import opened Wrappers

  /** The entries for timestamp `p`, oldest first. */
  function OnlyPts(q: seq<Entry>, p: int): seq<Entry> {
    if |q| == 0 then [] else IfPts(q[0], p) + OnlyPts(q[1..], p)
  }

  function IfPts(e: Entry, p: int): seq<Entry> {
    if e.pts == p then [e] else []
  }

  lemma {:induction false} OnlyPtsConcat(a: seq<Entry>, b: seq<Entry>, p: int)
    ensures OnlyPts(a + b, p) == OnlyPts(a, p) + OnlyPts(b, p)
  {
    if |a| == 0 {
      assert a + b == b;
    } else {
      OnlyPtsConcat(a[1..], b, p);
      assert (a + b)[0] == a[0] && (a + b)[1..] == a[1..] + b;
      Associate(IfPts(a[0], p), OnlyPts(a[1..], p), OnlyPts(b, p));
    }
  }

  lemma OnlyPtsSnoc(q: seq<Entry>, e: Entry, p: int)
    ensures OnlyPts(q + [e], p) == OnlyPts(q, p) + IfPts(e, p)
  {
    OnlyPtsConcat(q, [e], p);
    assert OnlyPts([e], p) == IfPts(e, p) + [] == IfPts(e, p);
  }

  lemma OnlyPtsSkipped(e: Entry, left: seq<Entry>, pts: int, dropOld: bool, p: int)
    requires e.pts != pts && !(dropOld && p < pts)
    ensures OnlyPts(Skipped(e, pts, dropOld) + left, p) == IfPts(e, p) + OnlyPts(left, p)
  {
    var s := Skipped(e, pts, dropOld);
    OnlyPtsConcat(s, left, p);
    if s != [] {
      OnlyPtsSnoc([], e, p);
      assert s == [] + [e] && [] + IfPts(e, p) == IfPts(e, p);
    }
  }

  /** A lookup finds the oldest entry for its timestamp, whenever there is one. */
  lemma {:induction false} LookupTakesOldest(q: seq<Entry>, pts: int, dropOld: bool)
    ensures Lookup(q, pts, dropOld).0.Some? <==> OnlyPts(q, pts) != []
    ensures Lookup(q, pts, dropOld).0.Some? ==>
      OnlyPts(q, pts) == [Entry(pts, Lookup(q, pts, dropOld).0.value)] + OnlyPts(Lookup(q, pts, dropOld).1, pts)
  {
    if |q| > 0 && q[0].pts == pts {
      assert IfPts(q[0], pts) == [Entry(pts, q[0].info)];
    } else if |q| > 0 {
      LookupTakesOldest(q[1..], pts, dropOld);
      var left := Lookup(q[1..], pts, dropOld).1;
      OnlyPtsSkipped(q[0], left, pts, dropOld, pts);
      assert [] + OnlyPts(left, pts) == OnlyPts(left, pts) && [] + OnlyPts(q[1..], pts) == OnlyPts(q[1..], pts);
    }
  }

  /** Of the other timestamps it disturbs only older ones, and those only when it purges. */
  lemma {:induction false} LookupSpares(q: seq<Entry>, pts: int, dropOld: bool, p: int)
    requires p != pts && !(dropOld && p < pts)
    ensures OnlyPts(Lookup(q, pts, dropOld).1, p) == OnlyPts(q, p)
  {
    if |q| > 0 && q[0].pts == pts {
      assert IfPts(q[0], p) + OnlyPts(q[1..], p) == OnlyPts(q[1..], p);
    } else if |q| > 0 {
      LookupSpares(q[1..], pts, dropOld, p);
      OnlyPtsSkipped(q[0], Lookup(q[1..], pts, dropOld).1, pts, dropOld, p);
    }
  }

  /** Purging loses exactly what was queued before the match: an older timestamp can still be found
      afterwards if and only if an entry for it was queued behind the one that matched. */
  lemma PurgeLosesExactly(q: seq<Entry>, pts: int, older: int)
    requires older < pts && FirstAt(q, pts) < |q|
    ensures Lookup(Lookup(q, pts, true).1, older, true).0.Some?
      <==> OnlyPts(q[FirstAt(q, pts) + 1..], older) != []
  {
    var k := FirstAt(q, pts);
    LookupTakesFirst(q, pts, true);
    var kept, behind := Kept(q[..k], pts, true), q[k + 1..];
    LookupTakesOldest(kept + behind, older, true);
    OnlyPtsConcat(kept, behind, older);
    KeptDropsOlder(q[..k], pts, older);
    assert OnlyPts(kept + behind, older) == [] + OnlyPts(behind, older) == OnlyPts(behind, older);
  }

  lemma {:induction false} KeptDropsOlder(q: seq<Entry>, pts: int, older: int)
    requires older < pts
    ensures OnlyPts(Kept(q, pts, true), older) == []
  {
    if |q| > 0 {
      KeptDropsOlder(q[1..], pts, older);
      OnlyPtsConcat(Skipped(q[0], pts, true), Kept(q[1..], pts, true), older);
    }
  }

  /** Two sequences with the same entries, in the same order, for every timestamp hold the same entries. */
  lemma SameByPts(a: seq<Entry>, b: seq<Entry>)
    requires forall p :: OnlyPts(a, p) == OnlyPts(b, p)
    ensures multiset(a) == multiset(b)
  {
    forall e: Entry ensures multiset(a)[e] == multiset(b)[e] {
      CountByPts(a, e);
      CountByPts(b, e);
    }
  }

  lemma {:induction false} CountByPts(q: seq<Entry>, e: Entry)
    ensures multiset(q)[e] == multiset(OnlyPts(q, e.pts))[e]
  {
    if |q| > 0 {
      CountByPts(q[1..], e);
      assert q == [q[0]] + q[1..];
    }
  }

  // ---------- sent, queued and received ----------

  /** After `before` the codec only got drain calls, at least one. */
  ghost predicate Drained(before: seq<Option<int>>, after: seq<Option<int>>) {
    before < after && DrainsOnly(after[|before|..])
  }

  ghost predicate DrainsOnly(calls: seq<Option<int>>) {
    forall k :: 0 <= k < |calls| ==> calls[k].None?
  }

  lemma DrainNext(before: seq<Option<int>>, after: seq<Option<int>>)
    requires before == after || Drained(before, after)
    ensures Drained(before, after + [None])
  {
    assert (after + [None])[|before|..] == after[|before|..] + [None];
  }

  /** What was sent carries the timestamps that the codec emitted, in the order it emitted them. */
  ghost predicate Follows(sent: seq<Entry>, emitted: seq<int>) {
    |sent| == |emitted| && forall k :: 0 <= k < |sent| ==> sent[k].pts == emitted[k]
  }

  lemma FollowsNext(sent: seq<Entry>, emitted: seq<int>, e: Entry)
    requires Follows(sent, emitted)
    ensures Follows(sent + [e], emitted + [e.pts])
  {
  }

  /** For every timestamp, what was sent and then what is queued is what was received, in order. */
  ghost predicate Matches(sent: seq<Entry>, queued: seq<Entry>, received: seq<Entry>) {
    forall p :: OnlyPts(sent, p) + OnlyPts(queued, p) == OnlyPts(received, p)
  }

  /** The codec has exactly the timestamps that are queued. */
  ghost predicate InStep(pending: multiset<int>, queued: seq<Entry>) {
    forall p :: pending[p] == |OnlyPts(queued, p)|
  }

  lemma ReceiveAt(sent: seq<Entry>, queued: seq<Entry>, received: seq<Entry>, e: Entry, p: int)
    ensures OnlyPts(received + [e], p) == OnlyPts(received, p) + IfPts(e, p)
    ensures OnlyPts(sent, p) + OnlyPts(queued, p) == OnlyPts(received, p) ==>
      OnlyPts(sent, p) + OnlyPts(queued + [e], p) == OnlyPts(received + [e], p)
    ensures |OnlyPts(queued + [e], p)| == |OnlyPts(queued, p)| + (if e.pts == p then 1 else 0)
  {
    OnlyPtsSnoc(queued, e, p);
    OnlyPtsSnoc(received, e, p);
    Associate(OnlyPts(sent, p), OnlyPts(queued, p), IfPts(e, p));
  }

  lemma ReceiveKeepsMatch(sent: seq<Entry>, queued: seq<Entry>, received: seq<Entry>, e: Entry)
    requires Matches(sent, queued, received)
    ensures Matches(sent, queued + [e], received + [e])
  {
    forall p ensures OnlyPts(sent, p) + OnlyPts(queued + [e], p) == OnlyPts(received + [e], p) {
      ReceiveAt(sent, queued, received, e, p);
    }
  }

  lemma ReceiveKeepsInStep(pending: multiset<int>, queued: seq<Entry>, e: Entry)
    requires InStep(pending, queued)
    ensures InStep(pending + multiset{e.pts}, queued + [e])
  {
    forall p ensures (pending + multiset{e.pts})[p] == |OnlyPts(queued + [e], p)| {
      ReceiveAt([], queued, [], e, p);
    }
  }

  /** What taking out the oldest entry for `pts` does to timestamp `p`. */
  lemma SendAt(sent: seq<Entry>, queued: seq<Entry>, pts: int, dropOld: bool, p: int)
    requires Lookup(queued, pts, dropOld).0.Some? && !(dropOld && p < pts)
    ensures var (found, left) := Lookup(queued, pts, dropOld);
            && OnlyPts(sent + [Entry(pts, found.value)], p) + OnlyPts(left, p) == OnlyPts(sent, p) + OnlyPts(queued, p)
            && |OnlyPts(left, p)| == |OnlyPts(queued, p)| - (if p == pts then 1 else 0)
  {
    var (found, left) := Lookup(queued, pts, dropOld);
    var out := Entry(pts, found.value);
    OnlyPtsSnoc(sent, out, p);
    if p == pts {
      LookupTakesOldest(queued, pts, dropOld);
      Associate(OnlyPts(sent, p), [out], OnlyPts(left, p));
    } else {
      LookupSpares(queued, pts, dropOld, p);
      assert OnlyPts(sent, p) + [] == OnlyPts(sent, p);
    }
  }

  /** Looking up a timestamp the codec still had succeeds, and sending the result keeps everything matched. */
  lemma SendKeepsMatch(sent: seq<Entry>, queued: seq<Entry>, received: seq<Entry>, pending: multiset<int>, pts: int)
    requires Matches(sent, queued, received) && InStep(pending, queued) && pts in pending
    ensures var (found, left) := Lookup(queued, pts, false);
            && found.Some?
            && Matches(sent + [Entry(pts, found.value)], left, received)
            && InStep(pending - multiset{pts}, left)
  {
    LookupTakesOldest(queued, pts, false);
    assert pending[pts] == |OnlyPts(queued, pts)|;
    var (found, left) := Lookup(queued, pts, false);
    forall p
      ensures OnlyPts(sent + [Entry(pts, found.value)], p) + OnlyPts(left, p) == OnlyPts(received, p)
      ensures (pending - multiset{pts})[p] == |OnlyPts(left, p)|
    {
      SendAt(sent, queued, pts, false, p);
    }
  }

  lemma EmptyByPts(q: seq<Entry>)
    ensures |q| > 0 ==> |OnlyPts(q, q[0].pts)| > 0
  {
  }

  /** When the codec is empty, so is the queue, and everything received has been sent. */
  lemma DrainedIsComplete(sent: seq<Entry>, queued: seq<Entry>, received: seq<Entry>)
    requires Matches(sent, queued, received) && InStep(multiset{}, queued)
    ensures queued == []
    ensures forall p :: OnlyPts(sent, p) == OnlyPts(received, p)
    ensures multiset(sent) == multiset(received)
  {
    EmptyByPts(queued);
    forall p ensures OnlyPts(sent, p) == OnlyPts(received, p) {
      assert OnlyPts(sent, p) + OnlyPts(queued, p) == OnlyPts(received, p);
      assert |OnlyPts(queued, p)| == multiset{}[p];
    }
    SameByPts(sent, received);
  }

  // ---------- a codec that keeps timestamps in order but may drop some ----------

  // `last` is the latest timestamp the codec has emitted.
  predicate Upcoming(p: int, last: Option<int>) {
    last.None? || p >= last.value
  }

  /** Every timestamp the codec can still emit is queued at least as often as the codec has it. */
  ghost predicate Covers(pending: multiset<int>, queued: seq<Entry>, last: Option<int>) {
    forall p :: Upcoming(p, last) ==> pending[p] <= |OnlyPts(queued, p)|
  }

  /** For every timestamp, what was sent is the beginning of what was received; for those still to come,
      what is queued is the rest of it. */
  ghost predicate MatchesInOrder(sent: seq<Entry>, queued: seq<Entry>, received: seq<Entry>, last: Option<int>) {
    && (forall p :: OnlyPts(sent, p) <= OnlyPts(received, p))
    && (forall p :: Upcoming(p, last) ==> OnlyPts(sent, p) + OnlyPts(queued, p) == OnlyPts(received, p))
  }

  lemma ReceiveKeepsOrder(sent: seq<Entry>, queued: seq<Entry>, received: seq<Entry>, last: Option<int>,
                          pending: multiset<int>, e: Entry)
    requires MatchesInOrder(sent, queued, received, last) && Covers(pending, queued, last)
    ensures MatchesInOrder(sent, queued + [e], received + [e], last)
    ensures Covers(pending + multiset{e.pts}, queued + [e], last)
  {
    forall p
      ensures OnlyPts(sent, p) <= OnlyPts(received + [e], p)
      ensures Upcoming(p, last) ==> OnlyPts(sent, p) + OnlyPts(queued + [e], p) == OnlyPts(received + [e], p)
      ensures Upcoming(p, last) ==> (pending + multiset{e.pts})[p] <= |OnlyPts(queued + [e], p)|
    {
      ReceiveAt(sent, queued, received, e, p);
    }
  }

  /** The purging lookup of a timestamp the codec emits succeeds, and it does not remove anything the
      codec can still emit. */
  lemma PurgingSendKeepsOrder(sent: seq<Entry>, queued: seq<Entry>, received: seq<Entry>, last: Option<int>,
                              pending: multiset<int>, pts: int)
    requires MatchesInOrder(sent, queued, received, last) && Covers(pending, queued, last)
    requires pts in pending && Upcoming(pts, last)
    ensures var (found, left) := Lookup(queued, pts, true);
            && found.Some?
            && MatchesInOrder(sent + [Entry(pts, found.value)], left, received, Some(pts))
            && Covers(pending - multiset{pts}, left, Some(pts))
  {
    LookupTakesOldest(queued, pts, true);
    assert pending[pts] <= |OnlyPts(queued, pts)|;
    var (found, left) := Lookup(queued, pts, true);
    var out := Entry(pts, found.value);
    forall p
      ensures OnlyPts(sent + [out], p) <= OnlyPts(received, p)
      ensures p >= pts ==> OnlyPts(sent + [out], p) + OnlyPts(left, p) == OnlyPts(received, p)
      ensures p >= pts ==> (pending - multiset{pts})[p] <= |OnlyPts(left, p)|
    {
      if p >= pts {
        SendAt(sent, queued, pts, true, p);
      } else {
        OnlyPtsSnoc(sent, out, p);
        assert OnlyPts(sent, p) + [] == OnlyPts(sent, p);
      }
    }
  }

  lemma PrefixCounts(a: seq<Entry>, b: seq<Entry>)
    requires forall p :: OnlyPts(a, p) <= OnlyPts(b, p)
    ensures multiset(a) <= multiset(b)
  {
    forall e: Entry ensures multiset(a)[e] <= multiset(b)[e] {
      CountByPts(a, e);
      CountByPts(b, e);
      PrefixCount(OnlyPts(a, e.pts), OnlyPts(b, e.pts), e);
    }
  }

  lemma PrefixCount(x: seq<Entry>, y: seq<Entry>, e: Entry)
    requires x <= y
    ensures multiset(x)[e] <= multiset(y)[e]
  {
    assert y == x + y[|x|..];
  }

  // ---------- what the purge leaves ----------

  /** Entry `e` was taken out of the queue, on the way to it the older entries went, and nothing else did. */
  ghost predicate Purged(was: seq<Entry>, left: seq<Entry>, e: Entry)
    decreases |was|
  {
    && |was| > 0
    && if was[0].pts == e.pts then was[0] == e && left == was[1..]
       else if was[0].pts < e.pts then Purged(was[1..], left, e)
       else |left| > 0 && left[0] == was[0] && Purged(was[1..], left[1..], e)
  }

  /** The purging lookup purges. */
  lemma {:induction false} LookupPurges(q: seq<Entry>, pts: int)
    ensures var (found, left) := Lookup(q, pts, true);
            found.Some? ==> Purged(q, left, Entry(pts, found.value))
  {
    if |q| > 0 && q[0].pts != pts {
      LookupPurges(q[1..], pts);
      var left := Lookup(q[1..], pts, true).1;
      assert [] + left == left && ([q[0]] + left)[1..] == left;
    }
  }

  /** What was queued before `e`, which has nothing for its timestamp, is gone unless it is newer; what was
      queued behind it is untouched. */
  lemma {:induction false} PurgedMeans(was: seq<Entry>, left: seq<Entry>, e: Entry)
      returns (before: seq<Entry>, newer: seq<Entry>, behind: seq<Entry>)
    requires Purged(was, left, e)
    ensures was == before + [e] + behind && left == newer + behind
    ensures forall j :: 0 <= j < |before| ==> before[j].pts != e.pts
    ensures forall j :: 0 <= j < |newer| ==> newer[j].pts > e.pts
    ensures forall p :: p > e.pts ==> OnlyPts(newer, p) == OnlyPts(before, p)
    decreases |was|
  {
    if was[0].pts == e.pts {
      before, newer, behind := [], [], was[1..];
    } else {
      var first := was[0];
      assert was == [first] + was[1..];
      if first.pts < e.pts {
        before, newer, behind := PurgedMeans(was[1..], left, e);
        forall p | p > e.pts ensures OnlyPts([first] + before, p) == OnlyPts(newer, p) {
          OnlyPtsCons(first, before, p);
        }
      } else {
        before, newer, behind := PurgedMeans(was[1..], left[1..], e);
        forall p | p > e.pts ensures OnlyPts([first] + before, p) == OnlyPts([first] + newer, p) {
          OnlyPtsCons(first, before, p);
          OnlyPtsCons(first, newer, p);
        }
        newer := [first] + newer;
      }
      before := [first] + before;
    }
  }

  lemma OnlyPtsCons(e: Entry, q: seq<Entry>, p: int)
    ensures OnlyPts([e] + q, p) == IfPts(e, p) + OnlyPts(q, p)
  {
    assert ([e] + q)[1..] == q;
  }

  /** `places` are the positions that the queued entries have among the received ones. */
  ghost predicate Tracks(queued: seq<Entry>, places: seq<nat>, received: seq<Entry>) {
    && |queued| == |places|
    && (forall j :: 0 <= j < |places| ==> places[j] < |received| && queued[j] == received[places[j]])
    && (forall i, j :: 0 <= i < j < |places| ==> places[i] < places[j])
  }

  /** The latest entry sent was received at position `matched`, and no entry that was received before it
      and is older than `last` is still queued. */
  ghost predicate NoneStale(sent: seq<Entry>, queued: seq<Entry>, received: seq<Entry>, places: seq<nat>,
                            last: Option<int>, matched: int) {
    && Tracks(queued, places, received)
    && matched < |received|
    && (sent != [] ==> 0 <= matched && received[matched] == sent[|sent| - 1])
    && (last.Some? ==> BehindIfOlder(queued, places, last.value, matched))
  }

  lemma ReceiveKeepsFresh(sent: seq<Entry>, queued: seq<Entry>, received: seq<Entry>, places: seq<nat>,
                          last: Option<int>, matched: int, e: Entry)
    requires NoneStale(sent, queued, received, places, last, matched)
    ensures NoneStale(sent, queued + [e], received + [e], places + [|received|], last, matched)
  {
  }

  lemma {:induction false} LookupTracks(q: seq<Entry>, places: seq<nat>, received: seq<Entry>, pts: int)
      returns (places': seq<nat>, matched: nat)
    requires Tracks(q, places, received) && Lookup(q, pts, true).0.Some?
    ensures var (found, left) := Lookup(q, pts, true);
            && Tracks(left, places', received)
            && matched < |received| && received[matched] == Entry(pts, found.value)
            && BehindIfOlder(left, places', pts, matched)
            && AllFrom(places', places[0])
  {
    TracksTail(q, places, received);
    if q[0].pts == pts {
      places', matched := places[1..], places[0];
    } else {
      var others;
      others, matched := LookupTracks(q[1..], places[1..], received, pts);
      var left := Lookup(q[1..], pts, true).1;
      if q[0].pts < pts {
        places' := others;
        assert [] + left == left;
      } else {
        places' := [places[0]] + others;
        PrependPlace(q[0], places[0], left, others, received, pts, matched);
      }
    }
  }

  ghost predicate AllFrom(places: seq<nat>, place: nat) {
    forall j :: 0 <= j < |places| ==> place <= places[j]
  }

  /** What is older than `pts` comes behind position `matched`. */
  ghost predicate BehindIfOlder(queued: seq<Entry>, places: seq<nat>, pts: int, matched: int)
    requires |queued| == |places|
  {
    forall j :: 0 <= j < |places| ==> queued[j].pts < pts ==> matched < places[j]
  }

  lemma TracksTail(q: seq<Entry>, places: seq<nat>, received: seq<Entry>)
    requires Tracks(q, places, received) && |q| > 0
    ensures Tracks(q[1..], places[1..], received) && AllFrom(places[1..], places[0] + 1)
    ensures |q| > 1 ==> places[0] < places[1..][0]
  {
  }

  lemma PrependPlace(e: Entry, place: nat, queued: seq<Entry>, places: seq<nat>, received: seq<Entry>, pts: int,
                     matched: int)
    requires Tracks(queued, places, received) && AllFrom(places, place + 1)
    requires place < |received| && e == received[place] && e.pts >= pts && BehindIfOlder(queued, places, pts, matched)
    ensures Tracks([e] + queued, [place] + places, received)
    ensures BehindIfOlder([e] + queued, [place] + places, pts, matched)
    ensures AllFrom([place] + places, place)
  {
  }

  // ---------- all of it together, for a purging filter ----------

  /** What was sent, what is queued and where that was received, what was received and what was emitted. */
  datatype Ledger = Ledger(sent: seq<Entry>, queued: seq<Entry>, received: seq<Entry>, places: seq<nat>, matched: int,
                           emitted: seq<int>)

  ghost predicate InOrder(l: Ledger, pending: multiset<int>, last: Option<int>) {
    match l
    case Ledger(sent, queued, received, places, matched, emitted) =>
      && Covers(pending, queued, last)
      && MatchesInOrder(sent, queued, received, last)
      && Follows(sent, emitted)
      && NoneStale(sent, queued, received, places, last, matched)
  }

  function Receive(l: Ledger, e: Entry): Ledger {
    l.(queued := l.queued + [e], received := l.received + [e], places := l.places + [|l.received|])
  }

  lemma ReceiveInOrder(l: Ledger, pending: multiset<int>, last: Option<int>, e: Entry)
    requires InOrder(l, pending, last)
    ensures InOrder(Receive(l, e), pending + multiset{e.pts}, last)
  {
    ReceiveKeepsOrder(l.sent, l.queued, l.received, last, pending, e);
    ReceiveKeepsFresh(l.sent, l.queued, l.received, l.places, last, l.matched, e);
  }

  /** The codec may drop what it has. */
  lemma DropInOrder(l: Ledger, more: multiset<int>, fewer: multiset<int>, last: Option<int>)
    requires InOrder(l, more, last) && fewer <= more
    ensures InOrder(l, fewer, last)
  {
  }

  /** Sending what the purging lookup found keeps everything in order, whatever the codec drops besides. */
  lemma EmitInOrder(l: Ledger, given: multiset<int>, pending: multiset<int>, last: Option<int>, pts: int)
      returns (l': Ledger)
    requires InOrder(l, given, last) && pts in given && Upcoming(pts, last) && pending <= given - multiset{pts}
    ensures var (found, left) := Lookup(l.queued, pts, true);
            && found.Some?
            && l' == Ledger(l.sent + [Entry(pts, found.value)], left, l.received, l'.places, l'.matched,
                            l.emitted + [pts])
            && Purged(l.queued, left, Entry(pts, found.value))
    ensures InOrder(l', pending, Some(pts))
  {
    PurgingSendKeepsOrder(l.sent, l.queued, l.received, last, given, pts);
    LookupPurges(l.queued, pts);
    var (found, left) := Lookup(l.queued, pts, true);
    var places, matched := LookupTracks(l.queued, l.places, l.received, pts);
    FollowsNext(l.sent, l.emitted, Entry(pts, found.value));
    l' := Ledger(l.sent + [Entry(pts, found.value)], left, l.received, places, matched, l.emitted + [pts]);
    DropInOrder(l', given - multiset{pts}, pending, Some(pts));
  }

  lemma InOrderCounts(l: Ledger, pending: multiset<int>, last: Option<int>)
    requires InOrder(l, pending, last)
    ensures multiset(l.sent) <= multiset(l.received)
    ensures forall p :: OnlyPts(l.sent, p) <= OnlyPts(l.received, p)
  {
    PrefixCounts(l.sent, l.received);
  }
}
