/** The values the video board reads from its surroundings: streams, peers,
    the two peer-id -> stream maps of the room and the local user's own
    streams, and the shape of a pinned selection. */
module Media {

  datatype Option<+T> = None | Some(value: T)

  /** A live audio/video source. Objects of this class stand for browser
      MediaStream objects: reference equality (`==` on objects) is
      JavaScript's `===`, and `id` is the stream's id string. Two distinct
      objects may carry the same id. */
  class MediaStream {
    const id: string

    constructor (id: string)
      ensures this.id == id
    {
      this.id := id;
    }
  }

  datatype VideoStreamType = Webcam | ScreenShare

  /** A roster entry; only its two identifiers matter to the board. */
  datatype Peer = Peer(peerId: string, userId: string)

  /** A room's record from peer id to that peer's stream of one kind. */
  type StreamMap = map<string, MediaStream>

  /** What the room supplies on every render. */
  datatype RoomContext = RoomContext(
    peerVideoStreams: StreamMap,
    peerScreenStreams: StreamMap,
    selfVideoStream: Option<MediaStream>,
    selfScreenStream: Option<MediaStream>)

  /** The pinned stream, with the peer and kind it was clicked as. */
  datatype SelectedPeerStream = SelectedPeerStream(
    peerId: string,
    videoStreamType: VideoStreamType,
    videoStream: MediaStream)

  /** `m[peerId]` in JavaScript for an own key: the stream, or `undefined`
      when the map has no own key `peerId`. */
  function Lookup(m: StreamMap, peerId: string): Option<MediaStream>
  {
    if peerId in m then Some(m[peerId]) else None
  }

  /** 1 for a present (truthy) stream slot, 0 for an absent one. */
  function Present(s: Option<MediaStream>): nat
  {
    if s.Some? then 1 else 0
  }
}
