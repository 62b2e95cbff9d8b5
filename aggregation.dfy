/** The two values the board derives on every render: the roster peers that
    have at least one stream (`peersWithVideo`) and the number of visible
    stream slots (`numberOfVideos`). Both are folds over a sequence in the
    source; here each is a left fold written as a function (the reference),
    a method with the source's loop proved equal to it, and lemmas saying
    what the function means. */
module Aggregation {
  import opened Media

  datatype PeerWithVideo = PeerWithVideo(
    peer: Peer,
    videoStream: Option<MediaStream>,
    screenStream: Option<MediaStream>)

  /** A roster peer has video when either map has an entry for its id. */
  predicate HasVideo(peer: Peer, videos: StreamMap, screens: StreamMap)
  {
    peer.peerId in videos || peer.peerId in screens
  }

  /** The entry the fold pushes for `peer`: both lookups, unchanged. */
  function EntryOf(peer: Peer, videos: StreamMap, screens: StreamMap): PeerWithVideo
  {
    PeerWithVideo(peer, Lookup(videos, peer.peerId), Lookup(screens, peer.peerId))
  }

  /** The `peerList.reduce` fold: roster peers with a stream, in roster order. */
  function PeersWithVideo(peerList: seq<Peer>, videos: StreamMap, screens: StreamMap): seq<PeerWithVideo>
    decreases |peerList|
  {
    if peerList == [] then []
    else
      var acc := PeersWithVideo(peerList[..|peerList| - 1], videos, screens);
      var peer := peerList[|peerList| - 1];
      if HasVideo(peer, videos, screens) then acc + [EntryOf(peer, videos, screens)] else acc
  }

  /** The peers of a sequence of entries. */
  function PeersOf(entries: seq<PeerWithVideo>): seq<Peer>
  {
    seq(|entries|, i requires 0 <= i < |entries| => entries[i].peer)
  }

  /** `xs` is `ys` with some elements dropped and the rest kept in order. */
  ghost predicate IsSubsequence<T>(xs: seq<T>, ys: seq<T>)
    decreases |ys|
  {
    if xs == [] then true
    else if ys == [] then false
    else if xs[|xs| - 1] == ys[|ys| - 1] then IsSubsequence(xs[..|xs| - 1], ys[..|ys| - 1])
    else IsSubsequence(xs, ys[..|ys| - 1])
  }

  /** How many roster positions hold a peer with video. */
  function CountWithVideo(peerList: seq<Peer>, videos: StreamMap, screens: StreamMap): nat
    decreases |peerList|
  {
    if peerList == [] then 0
    else
      CountWithVideo(peerList[..|peerList| - 1], videos, screens)
      + (if HasVideo(peerList[|peerList| - 1], videos, screens) then 1 else 0)
  }

  /** How many roster positions hold a peer whose id is a key of `m`. */
  function CountKeyed(peerList: seq<Peer>, m: StreamMap): nat
    decreases |peerList|
  {
    if peerList == [] then 0
    else CountKeyed(peerList[..|peerList| - 1], m) + (if peerList[|peerList| - 1].peerId in m then 1 else 0)
  }

  /** The `reduce` over `peersWithVideo`: one per present webcam, one per present screen. */
  function SlotCount(peers: seq<PeerWithVideo>): nat
    decreases |peers|
  {
    if peers == [] then 0
    else
      var last := peers[|peers| - 1];
      SlotCount(peers[..|peers| - 1]) + Present(last.videoStream) + Present(last.screenStream)
  }

  /** `numberOfVideos`: self webcam, self screen and every aggregated slot. */
  function NumberOfVideos(selfVideo: Option<MediaStream>, selfScreen: Option<MediaStream>,
                          peers: seq<PeerWithVideo>): nat
  {
    Present(selfVideo) + Present(selfScreen) + SlotCount(peers)
  }

  /** `peersWithVideo` of one render of the board. */
  function RoomPeersWithVideo(peerList: seq<Peer>, room: RoomContext): seq<PeerWithVideo>
  {
    PeersWithVideo(peerList, room.peerVideoStreams, room.peerScreenStreams)
  }

  /** `numberOfVideos` of one render of the board. */
  function RoomNumberOfVideos(peerList: seq<Peer>, room: RoomContext): nat
  {
    NumberOfVideos(room.selfVideoStream, room.selfScreenStream, RoomPeersWithVideo(peerList, room))
  }

  /** The roster fold as the source runs it: one pass, pushing onto `acc`. */
  method AggregatePeersWithVideo(peerList: seq<Peer>, peerVideoStreams: StreamMap, peerScreenStreams: StreamMap)
    returns (acc: seq<PeerWithVideo>)
    ensures acc == PeersWithVideo(peerList, peerVideoStreams, peerScreenStreams)
  {
    acc := [];
    for i := 0 to |peerList|
      invariant acc == PeersWithVideo(peerList[..i], peerVideoStreams, peerScreenStreams)
    {
      var peer := peerList[i];
      var videoStream := Lookup(peerVideoStreams, peer.peerId);
      var screenStream := Lookup(peerScreenStreams, peer.peerId);
      if videoStream.Some? || screenStream.Some? {
        acc := acc + [PeerWithVideo(peer, videoStream, screenStream)];
      }
      assert peerList[..i + 1][..i] == peerList[..i];
    }
    assert peerList[..|peerList|] == peerList;
  }

  /** `numberOfVideos` as the source runs it: two self terms and a `sum++` loop. */
  method CountVideos(selfVideoStream: Option<MediaStream>, selfScreenStream: Option<MediaStream>,
                     peersWithVideo: seq<PeerWithVideo>)
    returns (numberOfVideos: nat)
    ensures numberOfVideos == NumberOfVideos(selfVideoStream, selfScreenStream, peersWithVideo)
  {
    var sum := 0;
    for i := 0 to |peersWithVideo|
      invariant sum == SlotCount(peersWithVideo[..i])
    {
      var peerWithVideo := peersWithVideo[i];
      if peerWithVideo.videoStream.Some? {
        sum := sum + 1;
      }
      if peerWithVideo.screenStream.Some? {
        sum := sum + 1;
      }
      assert peersWithVideo[..i + 1][..i] == peersWithVideo[..i];
    }
    assert peersWithVideo[..|peersWithVideo|] == peersWithVideo;
    numberOfVideos := Present(selfVideoStream) + Present(selfScreenStream) + sum;
  }

  /** Every aggregated entry is a roster peer with video, and its two
      streams are exactly what the two maps hold for its id. */
  lemma {:induction false} PeersWithVideoEntries(peerList: seq<Peer>, videos: StreamMap, screens: StreamMap)
    ensures forall e :: e in PeersWithVideo(peerList, videos, screens) ==>
      && e.peer in peerList
      && HasVideo(e.peer, videos, screens)
      && (e.videoStream.Some? || e.screenStream.Some?)
      && e.videoStream == Lookup(videos, e.peer.peerId)
      && e.screenStream == Lookup(screens, e.peer.peerId)
    decreases |peerList|
  {
    if peerList != [] {
      var init := peerList[..|peerList| - 1];
      PeersWithVideoEntries(init, videos, screens);
      assert forall p :: p in init ==> p in peerList;
    }
  }

  /** The aggregated peers keep roster order: they are a subsequence of the roster. */
  lemma {:induction false} PeersWithVideoKeepsOrder(peerList: seq<Peer>, videos: StreamMap, screens: StreamMap)
    ensures IsSubsequence(PeersOf(PeersWithVideo(peerList, videos, screens)), peerList)
    decreases |peerList|
  {
    if peerList != [] {
      var init := peerList[..|peerList| - 1];
      var last := peerList[|peerList| - 1];
      var acc := PeersWithVideo(init, videos, screens);
      PeersWithVideoKeepsOrder(init, videos, screens);
      if HasVideo(last, videos, screens) {
        var xs := PeersOf(acc + [EntryOf(last, videos, screens)]);
        assert xs[..|xs| - 1] == PeersOf(acc);
        assert xs[|xs| - 1] == last;
      } else {
        SubsequenceOfLonger(PeersOf(acc), init, last);
        assert init + [last] == peerList;
      }
    }
  }

  /** Appending to the longer sequence keeps a subsequence a subsequence. */
  lemma {:induction false} SubsequenceOfLonger<T>(xs: seq<T>, ys: seq<T>, y: T)
    requires IsSubsequence(xs, ys)
    ensures IsSubsequence(xs, ys + [y])
    decreases |ys|, 1
  {
    var zs := ys + [y];
    assert zs[..|zs| - 1] == ys;
    if xs != [] && xs[|xs| - 1] == y {
      SubsequenceDropLast(xs, ys);
    }
  }

  /** Dropping the last element of a subsequence leaves a subsequence. */
  lemma {:induction false} SubsequenceDropLast<T>(xs: seq<T>, ys: seq<T>)
    requires xs != [] && IsSubsequence(xs, ys)
    ensures IsSubsequence(xs[..|xs| - 1], ys)
    decreases |ys|, 0
  {
    var init := ys[..|ys| - 1];
    assert init + [ys[|ys| - 1]] == ys;
    if xs[|xs| - 1] == ys[|ys| - 1] {
      SubsequenceOfLonger(xs[..|xs| - 1], init, ys[|ys| - 1]);
    } else {
      SubsequenceDropLast(xs, init);
      SubsequenceOfLonger(xs[..|xs| - 1], init, ys[|ys| - 1]);
    }
  }

  /** The fold keeps every roster position that has video and no other:
      its length is the number of such positions, and a peer is aggregated
      exactly when it is a roster peer with video. */
  lemma {:induction false} PeersWithVideoComplete(peerList: seq<Peer>, videos: StreamMap, screens: StreamMap)
    ensures |PeersWithVideo(peerList, videos, screens)| == CountWithVideo(peerList, videos, screens)
    ensures forall p :: p in PeersOf(PeersWithVideo(peerList, videos, screens)) <==>
      p in peerList && HasVideo(p, videos, screens)
    decreases |peerList|
  {
    if peerList != [] {
      var init := peerList[..|peerList| - 1];
      var last := peerList[|peerList| - 1];
      var acc := PeersWithVideo(init, videos, screens);
      PeersWithVideoComplete(init, videos, screens);
      assert peerList == init + [last];
      if HasVideo(last, videos, screens) {
        assert PeersOf(acc + [EntryOf(last, videos, screens)]) == PeersOf(acc) + [last];
      }
    }
  }

  /** The count of slots over the aggregated peers is the number of roster
      positions keyed in the webcam map plus those keyed in the screen map. */
  lemma {:induction false} SlotCountByMaps(peerList: seq<Peer>, videos: StreamMap, screens: StreamMap)
    ensures SlotCount(PeersWithVideo(peerList, videos, screens))
         == CountKeyed(peerList, videos) + CountKeyed(peerList, screens)
    decreases |peerList|
  {
    if peerList != [] {
      var init := peerList[..|peerList| - 1];
      var last := peerList[|peerList| - 1];
      var acc := PeersWithVideo(init, videos, screens);
      SlotCountByMaps(init, videos, screens);
      var e := EntryOf(last, videos, screens);
      assert Present(e.videoStream) == (if last.peerId in videos then 1 else 0);
      assert Present(e.screenStream) == (if last.peerId in screens then 1 else 0);
      if HasVideo(last, videos, screens) {
        var peers := acc + [e];
        assert peers[..|peers| - 1] == acc;
        assert SlotCount(peers) == SlotCount(acc) + Present(e.videoStream) + Present(e.screenStream);
      }
    }
  }

  lemma {:induction false} CountKeyedBound(peerList: seq<Peer>, m: StreamMap)
    ensures CountKeyed(peerList, m) <= |peerList|
    decreases |peerList|
  {
    if peerList != [] {
      CountKeyedBound(peerList[..|peerList| - 1], m);
    }
  }

  /** `numberOfVideos` counts the self slots and every roster peer's two map
      slots, and so is at most two per roster peer plus two. */
  lemma {:induction false} NumberOfVideosBySlots(peerList: seq<Peer>, room: RoomContext)
    ensures RoomNumberOfVideos(peerList, room)
         == Present(room.selfVideoStream) + Present(room.selfScreenStream)
          + CountKeyed(peerList, room.peerVideoStreams) + CountKeyed(peerList, room.peerScreenStreams)
    ensures RoomNumberOfVideos(peerList, room) <= 2 + 2 * |peerList|
  {
    SlotCountByMaps(peerList, room.peerVideoStreams, room.peerScreenStreams);
    CountKeyedBound(peerList, room.peerVideoStreams);
    CountKeyedBound(peerList, room.peerScreenStreams);
  }

  /** Each aggregated peer contributes at least one slot. */
  lemma {:induction false} SlotCountAtLeastPeers(peerList: seq<Peer>, videos: StreamMap, screens: StreamMap)
    ensures SlotCount(PeersWithVideo(peerList, videos, screens)) >= |PeersWithVideo(peerList, videos, screens)|
    decreases |peerList|
  {
    if peerList != [] {
      var init := peerList[..|peerList| - 1];
      var last := peerList[|peerList| - 1];
      var acc := PeersWithVideo(init, videos, screens);
      SlotCountAtLeastPeers(init, videos, screens);
      if HasVideo(last, videos, screens) {
        var peers := acc + [EntryOf(last, videos, screens)];
        assert peers[..|peers| - 1] == acc;
      }
    }
  }
}
