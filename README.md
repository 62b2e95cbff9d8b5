# Room video board of chitchatter

This project models the video board of a chitchatter room, in
`src/components/Room/RoomVideoDisplay.tsx`. The board does four things:

- It folds the peer roster into `peersWithVideo`. These are the roster peers
  that have a webcam stream, a screen stream or both in the room's two
  peer-id → stream maps, kept in roster order.
- It counts `numberOfVideos`, the number of visible stream slots. These are
  the local user's webcam and screen, plus the webcam and screen of each
  aggregated peer.
- It keeps one piece of state, the pinned stream `selectedPeerStream`. An
  effect clears the pin when fewer than two streams are visible. It also
  clears the pin when no stream the room holds has the pinned stream's id.
  A click handler pins and unpins streams.
- It renders a primary region, shown only while a stream is pinned, and a
  strip of tiles in a fixed order.

How the model is laid out:

- `media.dfy` (module `Media`): the input values. `MediaStream` is a class
  with a constant `id`. Reference equality of its objects is JavaScript's
  `===`, and `id` equality is a separate notion. This matches the source,
  whose click handler compares references and whose effect compares ids.
- `aggregation.dfy` (module `Aggregation`): the two folds. Each is a
  reference function written as a left fold, like `reduce`. Each also has a
  method that runs the source's loop (`acc.push`, `sum++`) and is proved
  equal to its function. Lemmas say what the functions mean.
- `tiles.dfy` (module `Tiles`): the strip's tile order and the primary
  region.
- `pin.dfy` (module `Pin`): the reference transitions `Reconciled` and
  `Clicked`, the consistency predicate `PinConsistent`, and the class
  `RoomVideoDisplay`. The class holds the pin. Its methods `Reconcile` (the
  effect, with the source's scan loop and early return) and
  `HandleVideoClick` update the pin and are proved against the reference
  transitions. React runs the effect after a render in which one of its six
  dependencies changed, as compared with `Object.is` (by value for the count,
  by reference for the rest): `numberOfVideos`, both maps, the pin and the
  two self streams. In the model, a caller runs it by calling
  `Reconcile` with that render's inputs. The roster is not a dependency, and
  the reconciler sees the roster only through `numberOfVideos`
  (`Pin.ReconcileSeesRosterOnlyThroughCount`). So a roster change that leaves
  the count unchanged could not change the outcome anyway.

Three behaviours of the code are worth knowing:

- The effect keeps a pin when any value of either map, or a self stream,
  has the pinned stream's id. This includes map entries of peers outside the
  roster, which have no tile (`Pin.ReconcileKeepsOffRosterPin`), and other
  objects with the same id (`Pin.ReconcileMatchesById`).
- The strip renders a `PeerVideo` for every visible stream, the pinned one
  too. The rendered strip is `StripTiles`, which takes no pin
  (`Tiles.RenderLayout`). Every strip element is also given the pin; what
  `PeerVideo` does with it is not part of this model.
- The primary `PeerVideo` is given the local user's id, even when the pinned
  stream belongs to a peer.

## Model

| member | source | states |
|---|---|---|
| `Media.Present` | src/components/Room/RoomVideoDisplay.tsx:60-64 | Reference definition of `x ? 1 : 0` and `if (x) sum++` on a stream slot. `Aggregation.CountVideos` and `Aggregation.NumberOfVideosBySlots` state what the sums built from it count. |
| `Media.Lookup` | src/components/Room/RoomVideoDisplay.tsx:43-44 | Reference definition of `peerVideoStreams[peer.peerId]`: the stream under the key, or absent. `Aggregation.PeersWithVideoEntries` states that aggregated entries carry these lookups. |
| `Aggregation.HasVideo` | src/components/Room/RoomVideoDisplay.tsx:46 | Reference definition of the test `videoStream \|\| screenStream`: either map has the peer's id. `Aggregation.PeersWithVideoComplete` uses it to characterise the fold. |
| `Aggregation.EntryOf` | src/components/Room/RoomVideoDisplay.tsx:47-51 | Reference definition of the pushed entry: the peer and its two lookups. |
| `Aggregation.PeersWithVideo` | src/components/Room/RoomVideoDisplay.tsx:41-57 | Reference definition of the `reduce` as a left fold. Its meaning is stated by `Aggregation.PeersWithVideoEntries`, `Aggregation.PeersWithVideoKeepsOrder` and `Aggregation.PeersWithVideoComplete`. `Aggregation.AggregatePeersWithVideo` is proved equal to it. |
| `Aggregation.SlotCount` | src/components/Room/RoomVideoDisplay.tsx:62-67 | Reference definition of the `sum++` fold over `peersWithVideo`. `Aggregation.SlotCountByMaps` and `Aggregation.SlotCountAtLeastPeers` state its meaning. |
| `Aggregation.NumberOfVideos` | src/components/Room/RoomVideoDisplay.tsx:59-67 | Reference definition of `numberOfVideos`: both self slots plus `SlotCount`. `Aggregation.CountVideos` is proved equal to it, and `Aggregation.NumberOfVideosBySlots` gives its closed form and bound. |
| `Aggregation.RoomPeersWithVideo` | src/components/Room/RoomVideoDisplay.tsx:41-57 | Reference definition of one render's `peersWithVideo`, taken from the room's two maps. The `Aggregation.PeersWithVideo…` lemmas state its meaning. |
| `Aggregation.RoomNumberOfVideos` | src/components/Room/RoomVideoDisplay.tsx:59-67 | Reference definition of one render's `numberOfVideos`, used by every `Pin` lemma. `Aggregation.NumberOfVideosBySlots` gives its closed form and bound, and `Tiles.StripTilesCount` equates it with the strip length. |
| `Aggregation.AggregatePeersWithVideo` | src/components/Room/RoomVideoDisplay.tsx:41-57 | The one-pass push loop over the roster returns exactly the left fold `PeersWithVideo`. |
| `Aggregation.PeersWithVideoEntries` | src/components/Room/RoomVideoDisplay.tsx:43-51 | Every aggregated entry is a roster peer with an entry in at least one map. At least one of its streams is present. Its webcam and screen streams equal the two map lookups for its peer id. |
| `Aggregation.PeersWithVideoKeepsOrder` | src/components/Room/RoomVideoDisplay.tsx:41-57 | The aggregated peers are a subsequence of the roster, so roster order is kept. |
| `Aggregation.PeersWithVideoComplete` | src/components/Room/RoomVideoDisplay.tsx:46-52 | There is one entry per roster position whose peer has video. A peer is aggregated exactly when it is a roster peer with an entry in either map. |
| `Aggregation.CountVideos` | src/components/Room/RoomVideoDisplay.tsx:59-67 | The two self terms plus the `sum++` loop over the aggregated peers equal `NumberOfVideos`: present self slots plus every present peer webcam and screen slot. |
| `Aggregation.SlotCountByMaps` | src/components/Room/RoomVideoDisplay.tsx:62-66 | The slots over the aggregated peers number the roster positions keyed in the webcam map plus those keyed in the screen map. |
| `Aggregation.NumberOfVideosBySlots` | src/components/Room/RoomVideoDisplay.tsx:59-67 | `numberOfVideos` is the present self slots plus, for every roster position, its webcam and screen map entries. It is therefore at most two plus twice the roster length. |
| `Aggregation.SlotCountAtLeastPeers` | src/components/Room/RoomVideoDisplay.tsx:62-66 | Every aggregated peer contributes at least one slot to the count. |
| `Tiles.SelfTiles` | src/components/Room/RoomVideoDisplay.tsx:154-174 | Reference definition of the self part of the strip. `Tiles.StripTilesSelfFirst` states its order and flags. |
| `Tiles.TilesOfPeer` | src/components/Room/RoomVideoDisplay.tsx:176-197 | Reference definition of one peer's fragment. `Tiles.StripTilesPeerOrder` states where it sits and its webcam-before-screen order. |
| `Tiles.PeerTiles` | src/components/Room/RoomVideoDisplay.tsx:175-198 | Reference definition of the `peersWithVideo.map` part of the strip. `Tiles.StripTilesPeerOrder` and `Tiles.PeerTilesFromRoster` state its order and origin. |
| `Tiles.StripTiles` | src/components/Room/RoomVideoDisplay.tsx:154-198 | Reference definition of the whole strip. `Tiles.StripTilesCount`, `Tiles.StripTilesSelfFirst`, `Tiles.StripTilesPeerOrder` and `Pin.StripTilesInRoom` state its meaning. |
| `Tiles.StripTilesCount` | src/components/Room/RoomVideoDisplay.tsx:154-198 | The strip has exactly `numberOfVideos` tiles. |
| `Tiles.StripTilesSelfFirst` | src/components/Room/RoomVideoDisplay.tsx:154-174 | The strip starts with the local webcam tile, then the local screen tile. The local webcam tile is the only tile flagged as self video. |
| `Tiles.StripTilesPeerOrder` | src/components/Room/RoomVideoDisplay.tsx:175-198 | The tiles of the i-th aggregated peer start right after the self tiles and the slots of the peers before it. They show its webcam, then its screen, under its user id. |
| `Tiles.PeerTilesFromRoster` | src/components/Room/RoomVideoDisplay.tsx:177-196 | Every peer tile belongs to a roster peer. It has that peer's user id and shows that peer's map entry of the tile's kind. |
| `Tiles.RenderLayout` | src/components/Room/RoomVideoDisplay.tsx:126-145 | The primary region is shown exactly when a stream is pinned. It shows the pinned stream and kind under the local user's id. The strip wraps exactly when nothing is pinned. The strip is `StripTiles`, whatever the pin, so it has `numberOfVideos` tiles. |
| `Pin.AllMediaStreams` | src/components/Room/RoomVideoDisplay.tsx:77-82 | Reference definition of `allMediaStreams`: every value of both maps, plus both self slots. `Pin.IdInRoomByMaps` states which ids it holds. |
| `Pin.MatchesId` | src/components/Room/RoomVideoDisplay.tsx:85 | Reference definition of `mediaStream?.id === selectedPeerStream.videoStream.id`: an absent slot matches nothing. `Pin.ReconcileMatchesById` and `Pin.IdInRoomByMaps` use it. |
| `Pin.IdInRoom` | src/components/Room/RoomVideoDisplay.tsx:84-88 | Reference definition of the scan's outcome: some entry of `allMediaStreams` matches the pinned id. `Pin.IdInRoomByMaps` restates it over the map entries, and `Pin.RoomVideoDisplay.Reconcile` runs the scan loop against it. |
| `Pin.Reconciled` | src/components/Room/RoomVideoDisplay.tsx:69-98 | Reference definition of the effect's outcome. `Pin.RoomVideoDisplay.Reconcile` is proved equal to it. Its meaning is stated by `Pin.ReconcileKeepsIff`, `Pin.ReconciledConsistent`, `Pin.ReconcileIdempotent` and the other `Pin.Reconcile…` lemmas. |
| `Pin.Clicked` | src/components/Room/RoomVideoDisplay.tsx:100-110 | Reference definition of the click handler's outcome. `Pin.RoomVideoDisplay.HandleVideoClick` is proved equal to it. `Pin.ClickCases`, `Pin.ClickNeverPinsAlone`, `Pin.ClickComparesByReference` and `Pin.ClickOnTileKeepsConsistent` state its meaning. |
| `Pin.ReconcileSeesRosterOnlyThroughCount` | src/components/Room/RoomVideoDisplay.tsx:91-98 | Two rosters with the same stream count reconcile alike, so leaving the roster out of the effect's dependencies loses nothing. |
| `Pin.RoomVideoDisplay.constructor` | src/components/Room/RoomVideoDisplay.tsx:30-31 | The board starts with no pin. |
| `Pin.RoomVideoDisplay.Render` | src/components/Room/RoomVideoDisplay.tsx:126-137 | The primary region exists exactly when the component's pin is set. |
| `Pin.RoomVideoDisplay.Reconcile` | src/components/Room/RoomVideoDisplay.tsx:69-98 | The effect, with its scan loop and early return, leaves the pin equal to `Reconciled` of the old pin. The result is consistent: at least two streams, and a stream in the room with the pinned id. |
| `Pin.RoomVideoDisplay.HandleVideoClick` | src/components/Room/RoomVideoDisplay.tsx:100-110 | The handler leaves the pin equal to `Clicked` of the old pin. |
| `Pin.IdInRoomByMaps` | src/components/Room/RoomVideoDisplay.tsx:77-88 | A stream the room holds has a given id exactly when a value of either map, or a self stream, has that id. The roster plays no part. |
| `Pin.ReconcileWithoutPin` | src/components/Room/RoomVideoDisplay.tsx:70 | With no pin, reconciling changes nothing. |
| `Pin.ReconcileFewStreams` | src/components/Room/RoomVideoDisplay.tsx:72-75 | With fewer than two visible streams, reconciling leaves no pin. |
| `Pin.ReconcileKeepsIff` | src/components/Room/RoomVideoDisplay.tsx:77-90 | A pin is kept unchanged exactly when there are at least two streams and some map value or self stream has its id. Otherwise it is cleared. |
| `Pin.ReconcileDropsReplacedStream` | src/components/Room/RoomVideoDisplay.tsx:84-90 | When no stream has the pinned id, the pin is cleared. This holds even if the pinned slot now holds another stream. |
| `Pin.ReconcileMatchesById` | src/components/Room/RoomVideoDisplay.tsx:85-86 | Another stream object with the pinned id keeps the pin. |
| `Pin.ReconcileKeepsOffRosterPin` | src/components/Room/RoomVideoDisplay.tsx:77-82 | A pin on the screen stream of a peer id that no roster peer has is kept, although no aggregated peer has that id. |
| `Pin.ReconciledConsistent` | src/components/Room/RoomVideoDisplay.tsx:69-98 | After reconciling, a set pin means at least two streams and an id found in the room. A pin is left unchanged exactly when it was already consistent. |
| `Pin.ReconcileIdempotent` | src/components/Room/RoomVideoDisplay.tsx:69-98 | Reconciling twice on the same inputs equals reconciling once. |
| `Pin.ClickCases` | src/components/Room/RoomVideoDisplay.tsx:100-110 | Clicking the pinned object unpins it. Otherwise, with more than one stream, the pin becomes exactly the clicked peer id, kind and stream. Otherwise nothing changes. |
| `Pin.ClickNeverPinsAlone` | src/components/Room/RoomVideoDisplay.tsx:107-109 | With at most one visible stream, a click clears the pin or leaves it and never sets a new one. |
| `Pin.ClickComparesByReference` | src/components/Room/RoomVideoDisplay.tsx:105 | Clicking a different object with the pinned id re-pins to that object. It does not unpin. |
| `Pin.StripTilesInRoom` | src/components/Room/RoomVideoDisplay.tsx:154-198 | Every strip tile shows a stream that the reconcile scan sees. |
| `Pin.ClickOnTileKeepsConsistent` | src/components/Room/RoomVideoDisplay.tsx:100-110 | Clicking a strip tile on a consistent board leaves it consistent, so the next reconcile keeps whatever the click set. |

## Left out

- `src/index.tsx` (DOM root, theme, router, service worker, web vitals) is app bootstrap with no board logic. It is not part of this model.
- The `sx` styling and the `Paper` and `Box` components are presentation only. Only "primary region iff pinned" and "strip wraps iff not pinned" are modelled.
- `PeerVideo`, `RoomContext` and `ShellContext` are not part of this model. Their values arrive as parameters (`peerList`, `RoomContext`). The peer id a tile passes to the click handler is a parameter of `HandleVideoClick`.
- React's scheduling is not modelled: `useState` becomes a class field and `useEffect` an explicit `Reconcile` call made after the inputs change.
- `Pin.RoomVideoDisplay.Reconcile`: the model does not capture a map mutated in place. Such a map keeps its reference, so React does not re-run the effect, and a stale pin can survive until another dependency changes. The model's caller decides when `Reconcile` runs, and each call sees the current maps.
- Real `MediaStream` and WebRTC objects are reduced to an object with an id.
- `Pin.RoomVideoDisplay.Reconcile`: the order of `Object.values` is not modelled. The scan visits a set of candidate streams in an arbitrary order. Its outcome depends only on whether some candidate has the pinned id, so no order changes it.
- `Media.Lookup`: peer ids that name properties inherited from `Object.prototype` (`constructor`, `toString`, `__proto__`) are not modelled. Indexing a plain object with one of them yields a truthy non-stream, while `Object.values` never returns it. The model looks up own keys only.
- A map entry whose value is `undefined` is not modelled: a key in a map always holds a stream.
