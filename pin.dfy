/** The board's one piece of state, the pinned stream, and its two
    transitions: the reconcile effect that drops a stale pin and the click
    handler that pins and unpins. `Reconciled` and `Clicked` are the
    reference definitions; the class `RoomVideoDisplay` holds the state and
    runs the source's steps, proved against them. */
module Pin {
  import opened Media
  import opened Aggregation
  import opened Tiles

  /** `allMediaStreams`: every value of both maps, whether or not its key is
      a roster peer, and the two self slots (absent slots included, as
      `undefined` is in the source). Their order plays no part in the scan. */
  function AllMediaStreams(room: RoomContext): set<Option<MediaStream>>
  {
    (set s | s in room.peerVideoStreams.Values :: Some(s))
    + (set s | s in room.peerScreenStreams.Values :: Some(s))
    + {room.selfVideoStream, room.selfScreenStream}
  }

  /** `mediaStream?.id === id`: an absent slot matches nothing. */
  predicate MatchesId(ms: Option<MediaStream>, id: string)
  {
    ms.Some? && ms.value.id == id
  }

  /** Some stream the room holds carries `id`. */
  predicate IdInRoom(room: RoomContext, id: string)
  {
    exists ms :: ms in AllMediaStreams(room) && MatchesId(ms, id)
  }

  /** The pin after the reconcile effect has run on one render's inputs. */
  function Reconciled(selected: Option<SelectedPeerStream>, peerList: seq<Peer>, room: RoomContext)
    : Option<SelectedPeerStream>
  {
    match selected
    case None => None
    case Some(p) =>
      if RoomNumberOfVideos(peerList, room) < 2 then None
      else if IdInRoom(room, p.videoStream.id) then selected
      else None
  }

  /** The pin after a click on the tile of `videoStream`. The pinned stream
      is compared by reference, not by id. */
  function Clicked(selected: Option<SelectedPeerStream>, peerId: string, videoStreamType: VideoStreamType,
                   videoStream: MediaStream, peerList: seq<Peer>, room: RoomContext)
    : Option<SelectedPeerStream>
  {
    if selected.Some? && selected.value.videoStream == videoStream then None
    else if RoomNumberOfVideos(peerList, room) > 1 then Some(SelectedPeerStream(peerId, videoStreamType, videoStream))
    else selected
  }

  /** What the board promises of a pin at rest: there are at least two
      streams, and one the room holds has the pinned stream's id. */
  predicate PinConsistent(selected: Option<SelectedPeerStream>, peerList: seq<Peer>, room: RoomContext)
  {
    selected.Some? ==> RoomNumberOfVideos(peerList, room) >= 2 && IdInRoom(room, selected.value.videoStream.id)
  }

  /** The room component: its prop and its pin state. */
  class RoomVideoDisplay {
    const userId: string
    var selectedPeerStream: Option<SelectedPeerStream>

    /** `useState(null)`: no pin at first. */
    constructor (userId: string)
      ensures this.userId == userId && selectedPeerStream == None
    {
      this.userId := userId;
      selectedPeerStream := None;
    }

    /** The render of the current state. */
    function Render(peerList: seq<Peer>, room: RoomContext): (l: Layout)
      reads this
      ensures l.primary.Some? <==> selectedPeerStream.Some?
    {
      RenderLayout(userId, peerList, room, selectedPeerStream)
    }

    /** The reconcile effect, run after the inputs have changed: clear the
        pin when fewer than two streams remain, keep it when some stream in
        `allMediaStreams` has its id, clear it otherwise. */
    method Reconcile(peerList: seq<Peer>, room: RoomContext)
      modifies this
      ensures selectedPeerStream == Reconciled(old(selectedPeerStream), peerList, room)
      ensures PinConsistent(selectedPeerStream, peerList, room)
    {
      if selectedPeerStream.None? {
        return;
      }
      var pinnedId := selectedPeerStream.value.videoStream.id;
      var peersWithVideo := AggregatePeersWithVideo(peerList, room.peerVideoStreams, room.peerScreenStreams);
      var numberOfVideos := CountVideos(room.selfVideoStream, room.selfScreenStream, peersWithVideo);
      if numberOfVideos < 2 {
        selectedPeerStream := None;
        return;
      }
      var allMediaStreams := AllMediaStreams(room);
      var pending := allMediaStreams;
      while pending != {}
        invariant forall ms :: ms in allMediaStreams && ms !in pending ==> !MatchesId(ms, pinnedId)
        decreases pending
      {
        var mediaStream :| mediaStream in pending;
        if mediaStream.Some? && mediaStream.value.id == pinnedId {
          return;
        }
        pending := pending - {mediaStream};
      }
      selectedPeerStream := None;
    }

    /** `handleVideoClick`: unpin when the clicked stream is the pinned
        object, otherwise pin it when more than one stream is visible. */
    method HandleVideoClick(peerId: string, videoStreamType: VideoStreamType, videoStream: MediaStream,
                            peerList: seq<Peer>, room: RoomContext)
      modifies this
      ensures selectedPeerStream
           == Clicked(old(selectedPeerStream), peerId, videoStreamType, videoStream, peerList, room)
    {
      var peersWithVideo := AggregatePeersWithVideo(peerList, room.peerVideoStreams, room.peerScreenStreams);
      var numberOfVideos := CountVideos(room.selfVideoStream, room.selfScreenStream, peersWithVideo);
      if selectedPeerStream.Some? && selectedPeerStream.value.videoStream == videoStream {
        selectedPeerStream := None;
      } else if numberOfVideos > 1 {
        selectedPeerStream := Some(SelectedPeerStream(peerId, videoStreamType, videoStream));
      }
    }
  }

  /** A stream the room holds is found by the scan exactly when its id is
      in one of the two maps' values or in a self slot; roster membership
      plays no part. */
  lemma IdInRoomByMaps(room: RoomContext, id: string)
    ensures IdInRoom(room, id) <==>
      || (exists k :: k in room.peerVideoStreams && room.peerVideoStreams[k].id == id)
      || (exists k :: k in room.peerScreenStreams && room.peerScreenStreams[k].id == id)
      || MatchesId(room.selfVideoStream, id)
      || MatchesId(room.selfScreenStream, id)
  {
    if exists k :: k in room.peerVideoStreams && room.peerVideoStreams[k].id == id {
      var k :| k in room.peerVideoStreams && room.peerVideoStreams[k].id == id;
      assert Some(room.peerVideoStreams[k]) in AllMediaStreams(room);
    }
    if exists k :: k in room.peerScreenStreams && room.peerScreenStreams[k].id == id {
      var k :| k in room.peerScreenStreams && room.peerScreenStreams[k].id == id;
      assert Some(room.peerScreenStreams[k]) in AllMediaStreams(room);
    }
    if IdInRoom(room, id) {
      var ms :| ms in AllMediaStreams(room) && MatchesId(ms, id);
      if ms in (set s | s in room.peerVideoStreams.Values :: Some(s)) {
        var k :| k in room.peerVideoStreams && room.peerVideoStreams[k] == ms.value;
      } else if ms in (set s | s in room.peerScreenStreams.Values :: Some(s)) {
        var k :| k in room.peerScreenStreams && room.peerScreenStreams[k] == ms.value;
      }
    }
  }

  /** With no pin, reconciling changes nothing. */
  lemma ReconcileWithoutPin(peerList: seq<Peer>, room: RoomContext)
    ensures Reconciled(None, peerList, room) == None
  {
  }

  /** With fewer than two visible streams, reconciling always leaves no pin. */
  lemma ReconcileFewStreams(selected: Option<SelectedPeerStream>, peerList: seq<Peer>, room: RoomContext)
    requires RoomNumberOfVideos(peerList, room) < 2
    ensures Reconciled(selected, peerList, room) == None
  {
  }

  /** Reconciling keeps a pin unchanged exactly when there are at least two
      streams and a map value or a self stream has the pinned id, and
      otherwise clears it. */
  lemma ReconcileKeepsIff(selected: Option<SelectedPeerStream>, peerList: seq<Peer>, room: RoomContext)
    requires selected.Some?
    ensures var id := selected.value.videoStream.id;
      var kept := RoomNumberOfVideos(peerList, room) >= 2 &&
        (|| (exists k :: k in room.peerVideoStreams && room.peerVideoStreams[k].id == id)
         || (exists k :: k in room.peerScreenStreams && room.peerScreenStreams[k].id == id)
         || MatchesId(room.selfVideoStream, id)
         || MatchesId(room.selfScreenStream, id));
      && (kept ==> Reconciled(selected, peerList, room) == selected)
      && (!kept ==> Reconciled(selected, peerList, room) == None)
  {
    IdInRoomByMaps(room, selected.value.videoStream.id);
  }

  /** A slot that now holds a different stream with a different id does
      not keep the pin, even though the slot is occupied again. */
  lemma ReconcileDropsReplacedStream(p: SelectedPeerStream, peerList: seq<Peer>, room: RoomContext)
    requires forall k :: k in room.peerVideoStreams ==> room.peerVideoStreams[k].id != p.videoStream.id
    requires forall k :: k in room.peerScreenStreams ==> room.peerScreenStreams[k].id != p.videoStream.id
    requires !MatchesId(room.selfVideoStream, p.videoStream.id)
    requires !MatchesId(room.selfScreenStream, p.videoStream.id)
    ensures Reconciled(Some(p), peerList, room) == None
  {
    IdInRoomByMaps(room, p.videoStream.id);
  }

  /** The scan matches by id: another stream object with the pinned id keeps the pin. */
  lemma ReconcileMatchesById(p: SelectedPeerStream, other: MediaStream, k: string,
                             peerList: seq<Peer>, room: RoomContext)
    requires k in room.peerVideoStreams && room.peerVideoStreams[k] == other
    requires other.id == p.videoStream.id
    requires RoomNumberOfVideos(peerList, room) >= 2
    ensures Reconciled(Some(p), peerList, room) == Some(p)
  {
    assert Some(other) in AllMediaStreams(room);
  }

  /** The scan covers peers outside the roster: a pin on the screen stream
      of a peer id no roster peer has is kept, although no strip tile belongs
      to that id. */
  lemma ReconcileKeepsOffRosterPin(p: SelectedPeerStream, k: string, peerList: seq<Peer>, room: RoomContext)
    requires k in room.peerScreenStreams && room.peerScreenStreams[k] == p.videoStream
    requires forall q :: q in peerList ==> q.peerId != k
    requires RoomNumberOfVideos(peerList, room) >= 2
    ensures Reconciled(Some(p), peerList, room) == Some(p)
    ensures forall e :: e in RoomPeersWithVideo(peerList, room) ==> e.peer.peerId != k
  {
    assert Some(p.videoStream) in AllMediaStreams(room);
    PeersWithVideoEntries(peerList, room.peerVideoStreams, room.peerScreenStreams);
  }

  /** The roster reaches the reconcile effect only through the stream
      count: two rosters with the same count reconcile alike. */
  lemma ReconcileSeesRosterOnlyThroughCount(selected: Option<SelectedPeerStream>, peerList1: seq<Peer>,
                                            peerList2: seq<Peer>, room: RoomContext)
    requires RoomNumberOfVideos(peerList1, room) == RoomNumberOfVideos(peerList2, room)
    ensures Reconciled(selected, peerList1, room) == Reconciled(selected, peerList2, room)
  {
  }

  /** What reconciling leaves is consistent, and a pin is left unchanged
      exactly when it already was consistent. */
  lemma ReconciledConsistent(selected: Option<SelectedPeerStream>, peerList: seq<Peer>, room: RoomContext)
    ensures PinConsistent(Reconciled(selected, peerList, room), peerList, room)
    ensures Reconciled(selected, peerList, room).Some? ==> RoomNumberOfVideos(peerList, room) >= 2
    ensures Reconciled(selected, peerList, room) == selected <==> PinConsistent(selected, peerList, room)
  {
  }

  /** Reconciling twice on the same inputs is reconciling once. */
  lemma ReconcileIdempotent(selected: Option<SelectedPeerStream>, peerList: seq<Peer>, room: RoomContext)
    ensures Reconciled(Reconciled(selected, peerList, room), peerList, room) == Reconciled(selected, peerList, room)
  {
    ReconciledConsistent(selected, peerList, room);
    ReconciledConsistent(Reconciled(selected, peerList, room), peerList, room);
  }

  /** The three outcomes of a click. */
  lemma ClickCases(selected: Option<SelectedPeerStream>, peerId: string, videoStreamType: VideoStreamType,
                   videoStream: MediaStream, peerList: seq<Peer>, room: RoomContext)
    ensures var r := Clicked(selected, peerId, videoStreamType, videoStream, peerList, room);
      && (selected.Some? && selected.value.videoStream == videoStream ==> r == None)
      && (!(selected.Some? && selected.value.videoStream == videoStream) && RoomNumberOfVideos(peerList, room) > 1 ==>
            r == Some(SelectedPeerStream(peerId, videoStreamType, videoStream)))
      && (!(selected.Some? && selected.value.videoStream == videoStream) && RoomNumberOfVideos(peerList, room) <= 1 ==>
            r == selected)
  {
  }

  /** With at most one visible stream a click never sets a new pin: it
      clears the pin or leaves it. */
  lemma ClickNeverPinsAlone(selected: Option<SelectedPeerStream>, peerId: string, videoStreamType: VideoStreamType,
                            videoStream: MediaStream, peerList: seq<Peer>, room: RoomContext)
    requires RoomNumberOfVideos(peerList, room) <= 1
    ensures var r := Clicked(selected, peerId, videoStreamType, videoStream, peerList, room);
      r == None || r == selected
  {
  }

  /** The click compares by reference: a different stream object with the
      pinned id re-pins to the clicked object instead of unpinning. */
  lemma ClickComparesByReference(p: SelectedPeerStream, peerId: string, videoStreamType: VideoStreamType,
                                 videoStream: MediaStream, peerList: seq<Peer>, room: RoomContext)
    requires videoStream != p.videoStream && videoStream.id == p.videoStream.id
    requires RoomNumberOfVideos(peerList, room) > 1
    ensures Clicked(Some(p), peerId, videoStreamType, videoStream, peerList, room)
         == Some(SelectedPeerStream(peerId, videoStreamType, videoStream))
  {
  }

  /** Every strip tile shows a stream that the reconcile scan sees. */
  lemma StripTilesInRoom(userId: string, peerList: seq<Peer>, room: RoomContext)
    ensures forall t :: t in StripTiles(userId, peerList, room) ==> Some(t.videoStream) in AllMediaStreams(room)
  {
    var videos, screens := room.peerVideoStreams, room.peerScreenStreams;
    PeerTilesFromRoster(peerList, videos, screens);
    var self := SelfTiles(userId, room);
    var peerTiles := PeerTiles(PeersWithVideo(peerList, videos, screens));
    forall t | t in StripTiles(userId, peerList, room)
      ensures Some(t.videoStream) in AllMediaStreams(room)
    {
      if t in peerTiles {
        var p :| p in peerList && t.userId == p.userId &&
          if t.videoStreamType == Webcam then Lookup(videos, p.peerId) == Some(t.videoStream)
          else Lookup(screens, p.peerId) == Some(t.videoStream);
        if t.videoStreamType == Webcam {
          assert videos[p.peerId] == t.videoStream;
        } else {
          assert screens[p.peerId] == t.videoStream;
        }
      } else {
        assert t in self;
      }
    }
  }

  /** Clicking a strip tile on a consistent board leaves it consistent, so
      the reconcile effect that follows the click keeps what the click set. */
  lemma ClickOnTileKeepsConsistent(selected: Option<SelectedPeerStream>, userId: string, peerId: string,
                                   t: Tile, peerList: seq<Peer>, room: RoomContext)
    requires PinConsistent(selected, peerList, room)
    requires t in StripTiles(userId, peerList, room)
    ensures var r := Clicked(selected, peerId, t.videoStreamType, t.videoStream, peerList, room);
      PinConsistent(r, peerList, room) && Reconciled(r, peerList, room) == r
  {
    StripTilesInRoom(userId, peerList, room);
    assert MatchesId(Some(t.videoStream), t.videoStream.id);
  }
}
