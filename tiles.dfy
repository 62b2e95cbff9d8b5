/** What the board renders: the tiles of the strip, in their fixed order,
    and the primary region that holds the pinned stream. A tile stands for
    one `PeerVideo` element with the arguments that identify it. */
module Tiles {
  import opened Media
  import opened Aggregation

  datatype Tile = Tile(
    userId: string,
    videoStream: MediaStream,
    videoStreamType: VideoStreamType,
    isSelfVideo: bool)

  /** The local user's tiles: webcam (flagged as self video), then screen. */
  function SelfTiles(userId: string, room: RoomContext): seq<Tile>
  {
    (match room.selfVideoStream
     case Some(s) => [Tile(userId, s, Webcam, true)]
     case None => [])
    + (match room.selfScreenStream
       case Some(s) => [Tile(userId, s, ScreenShare, false)]
       case None => [])
  }

  /** One aggregated peer's fragment: webcam, then screen, under the peer's user id. */
  function TilesOfPeer(p: PeerWithVideo): seq<Tile>
  {
    (match p.videoStream
     case Some(s) => [Tile(p.peer.userId, s, Webcam, false)]
     case None => [])
    + (match p.screenStream
       case Some(s) => [Tile(p.peer.userId, s, ScreenShare, false)]
       case None => [])
  }

  /** The `peersWithVideo.map` part of the strip. */
  function PeerTiles(peers: seq<PeerWithVideo>): seq<Tile>
    decreases |peers|
  {
    if peers == [] then []
    else PeerTiles(peers[..|peers| - 1]) + TilesOfPeer(peers[|peers| - 1])
  }

  /** Every tile of the strip, in render order. */
  function StripTiles(userId: string, peerList: seq<Peer>, room: RoomContext): seq<Tile>
  {
    SelfTiles(userId, room) + PeerTiles(RoomPeersWithVideo(peerList, room))
  }

  /** The rendered board: the primary region (present only while a stream
      is pinned), the strip, and whether the strip wraps into a grid. */
  datatype Layout = Layout(primary: Option<Tile>, strip: seq<Tile>, stripWraps: bool)

  /** The render. The primary tile shows the pinned stream and kind under
      the local user's id, whoever the pinned stream belongs to; the strip
      is the same with or without a pin. */
  function RenderLayout(userId: string, peerList: seq<Peer>, room: RoomContext,
                        selected: Option<SelectedPeerStream>): (l: Layout)
    ensures l.primary.Some? <==> selected.Some?
    ensures selected.Some? ==>
      && l.primary.value.videoStream == selected.value.videoStream
      && l.primary.value.videoStreamType == selected.value.videoStreamType
      && l.primary.value.userId == userId
    ensures l.stripWraps <==> selected.None?
    ensures l.strip == StripTiles(userId, peerList, room)
    ensures |l.strip| == RoomNumberOfVideos(peerList, room)
  {
    StripTilesCount(userId, peerList, room);
    Layout(
      match selected
      case Some(p) => Some(Tile(userId, p.videoStream, p.videoStreamType, false))
      case None => None,
      StripTiles(userId, peerList, room),
      selected.None?)
  }

  lemma {:induction false} PeerTilesCount(peers: seq<PeerWithVideo>)
    ensures |PeerTiles(peers)| == SlotCount(peers)
    decreases |peers|
  {
    if peers != [] {
      PeerTilesCount(peers[..|peers| - 1]);
    }
  }

  /** The strip has exactly one tile per visible stream slot. */
  lemma StripTilesCount(userId: string, peerList: seq<Peer>, room: RoomContext)
    ensures |StripTiles(userId, peerList, room)| == RoomNumberOfVideos(peerList, room)
  {
    PeerTilesCount(RoomPeersWithVideo(peerList, room));
  }

  /** A shorter prefix of the aggregated peers renders a prefix of the tiles. */
  lemma {:induction false} PeerTilesPrefix(peers: seq<PeerWithVideo>, j: nat)
    requires j <= |peers|
    ensures PeerTiles(peers[..j]) <= PeerTiles(peers)
    decreases |peers|
  {
    if j < |peers| {
      var init := peers[..|peers| - 1];
      assert init[..j] == peers[..j];
      PeerTilesPrefix(init, j);
    } else {
      assert peers[..j] == peers;
    }
  }

  /** No peer tile is flagged as the local user's video. */
  lemma {:induction false} PeerTilesNotSelf(peers: seq<PeerWithVideo>)
    ensures forall k :: 0 <= k < |PeerTiles(peers)| ==> !PeerTiles(peers)[k].isSelfVideo
    decreases |peers|
  {
    if peers != [] {
      PeerTilesNotSelf(peers[..|peers| - 1]);
    }
  }

  /** The strip starts with the local user's webcam (the only tile flagged as
      self video) and then the local user's screen. */
  lemma StripTilesSelfFirst(userId: string, peerList: seq<Peer>, room: RoomContext)
    ensures room.selfVideoStream.Some? ==>
      StripTiles(userId, peerList, room)[0] == Tile(userId, room.selfVideoStream.value, Webcam, true)
    ensures room.selfScreenStream.Some? ==>
      && Present(room.selfVideoStream) < |StripTiles(userId, peerList, room)|
      && StripTiles(userId, peerList, room)[Present(room.selfVideoStream)]
         == Tile(userId, room.selfScreenStream.value, ScreenShare, false)
    ensures forall k :: 0 <= k < |StripTiles(userId, peerList, room)| ==>
      (StripTiles(userId, peerList, room)[k].isSelfVideo <==> k == 0 && room.selfVideoStream.Some?)
  {
    var peers := RoomPeersWithVideo(peerList, room);
    PeerTilesNotSelf(peers);
    var strip := StripTiles(userId, peerList, room);
    var self := SelfTiles(userId, room);
    forall k | 0 <= k < |strip|
      ensures strip[k].isSelfVideo <==> k == 0 && room.selfVideoStream.Some?
    {
      if k >= |self| {
        assert strip[k] == PeerTiles(peers)[k - |self|];
      }
    }
  }

  /** Each aggregated peer's tiles sit together, after the self tiles and
      the tiles of the peers before it in roster order, webcam before screen. */
  lemma StripTilesPeerOrder(userId: string, peerList: seq<Peer>, room: RoomContext, i: nat)
    requires i < |RoomPeersWithVideo(peerList, room)|
    ensures var peers := RoomPeersWithVideo(peerList, room);
            var strip := StripTiles(userId, peerList, room);
            var off := Present(room.selfVideoStream) + Present(room.selfScreenStream) + SlotCount(peers[..i]);
            && off + Present(peers[i].videoStream) + Present(peers[i].screenStream) <= |strip|
            && (peers[i].videoStream.Some? ==>
                  strip[off] == Tile(peers[i].peer.userId, peers[i].videoStream.value, Webcam, false))
            && (peers[i].screenStream.Some? ==>
                  strip[off + Present(peers[i].videoStream)]
                  == Tile(peers[i].peer.userId, peers[i].screenStream.value, ScreenShare, false))
  {
    var peers := RoomPeersWithVideo(peerList, room);
    var strip := StripTiles(userId, peerList, room);
    var self := SelfTiles(userId, room);
    PeerTilesPrefix(peers, i + 1);
    var upTo := peers[..i + 1];
    assert upTo[..i] == peers[..i];
    assert PeerTiles(upTo) == PeerTiles(peers[..i]) + TilesOfPeer(peers[i]);
    PeerTilesCount(peers[..i]);
    assert |self| == Present(room.selfVideoStream) + Present(room.selfScreenStream);
    var off := |self| + |PeerTiles(peers[..i])|;
    assert strip[off..off + |TilesOfPeer(peers[i])|] == TilesOfPeer(peers[i]);
  }

  /** Every peer tile belongs to a roster peer: it is labelled with that
      peer's user id and shows that peer's map entry of the tile's kind. */
  lemma {:induction false} PeerTilesFromRoster(peerList: seq<Peer>, videos: StreamMap, screens: StreamMap)
    ensures forall t :: t in PeerTiles(PeersWithVideo(peerList, videos, screens)) ==>
      exists p :: p in peerList && t.userId == p.userId &&
        if t.videoStreamType == Webcam then Lookup(videos, p.peerId) == Some(t.videoStream)
        else Lookup(screens, p.peerId) == Some(t.videoStream)
    decreases |peerList|
  {
    if peerList != [] {
      var init := peerList[..|peerList| - 1];
      var last := peerList[|peerList| - 1];
      PeerTilesFromRoster(init, videos, screens);
      var acc := PeersWithVideo(init, videos, screens);
      assert forall p :: p in init ==> p in peerList;
      if HasVideo(last, videos, screens) {
        var peers := acc + [EntryOf(last, videos, screens)];
        assert peers[..|peers| - 1] == acc;
        assert PeerTiles(peers) == PeerTiles(acc) + TilesOfPeer(EntryOf(last, videos, screens));
      }
    }
  }
}
