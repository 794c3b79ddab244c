# VLC for Android: protocols and data behind the screen

A Dafny model of the parts of VLC for Android that carry real state: how native objects are
counted and freed, how a Java list mirrors a native one, how a media is parsed and a thumbnail
made by several threads, how surfaces and playback wait for each other, and the smaller loops
around them. `dafny verify dfyconfig.toml` checks everything.

| file | what it models |
|---|---|
| `Basics.dfy` | an optional value, and the history of a state machine |
| `VlcObject.dfy` | reference counts, listeners, queued events and release, for any number of threads |
| `EventTable.dfy` | attaching and detaching a table of native events |
| `MediaParse.dfy` | the parse of a media: Java status bits above native flags, condition variable and event filter |
| `MediaCaches.dfy` | what the caches of the media hold in those runs |
| `SparseArrays.dfy`, `MediaLists.dfy` | the sparse array and the list kept in it, shifted in place by events |
| `MediaListRuns.dfy` | whole histories of such a list, with every reference to its media |
| `Thumbnails.dfy` | fitting a picture into a frame with black borders, and copying it there |
| `ThumbnailRuns.dfy` | the hand-over of the thumbnail between callbacks and the waiting thread |
| `Windows.dfy` | the surfaces of a window, from configured to attached to ready |
| `DeferredPlay.dfy` | play requests parked until the surfaces are ready |
| `Delivery.dfy` | mouse events and window sizes, sent on change and repeated on registration |
| `Folders.dfy` | removal of a folder and of the entry points inside it |
| `Filtered.dfy` | result arrays with the failed conversions taken out |
| `Clock.dfy` | durations as text, and the readers that invert them |

Each protocol appears twice. A class has the fields and the methods of the original, each method
specified by a function of the old state. A state machine then interleaves steps at the
granularity of the locks, and a `Run` is any sequence of enabled steps; the theorems are about all
runs. `Legal(r)` says that each step of `r` was enabled, `After(r)` is the state it leads to.

Where a promise does not hold of the code as it stands, the model keeps the code and proves when
the promise holds, next to a concrete run or input that shows why the condition is there:

- the picture buffer of a thumbnail is sized in 32 bits with one spare row, and wraps around for
  some frames (`BufferHoldsRowsIff`, `CopiesStayInBoundsIff`; `BufferCanBeTooSmall`);
- a media whose parse could not be started stays in the parsing status for ever, and silent once no
  event is past the filter (`StuckIffStartFailed`, `FailedStartSilentIff`; `StuckRun`);
- an event that passed the filter just before a parse began reaches Java during it (`SilentIff`;
  `EventOvertakesFlag`), and a getter cut in two by an invalidation caches an old value
  (`CoherentIff`; `CutReadGoesStale`);
- the change of a meta may never empty its cache, even if it was sent before a parse, and that of
  the artwork never does (`MetaChangeEmptiesIff`; `StaleAfterParse`, `StaleArtwork`);
- the final release of a list drops references of media that were deleted from it before
  (`ReleasedOnceIffNeverDeleted`; `ReleasedAgainRun`), which may be those of a client
  (`ReleaseSparesIff`; `RobbedRun`), and an insertion event nobody runs leaks a reference
  (`LeaksIffDropped`; `LeakingRun`);
- `attachViews` can throw although both surfaces are valid (`AttachThrowsIff`; `ThrowingRun`);
- a `stop` is undone by a thread already in `play`, or by a callback that had already decided to
  play (`StopHoldsIff`; `StopUndoneByCallback`), and the native calls of `play` and `stop` may be made
  in the other order than their blocks (`NativeAgreesIff`; `StopOvertakenNatively`);
- a mouse action of -1 or a window side of -1 means "not set" to a registration (`UpToDateIff`;
  `LostAction`, `LostSize`);
- durations of 2^31 hours or more lose their hours (`ClockRoundTrip`; `SmallestIsLost`).

The comment on `release` says that the native object is released "if ref count is 1"; the code
releases it when the count drops from one to zero. The comment on `encodeVLCString` lists `!` among
the characters to encode; the code does not encode it. The model follows the code in both.

Assumptions about the surroundings: detaching a native event waits for its running callback and
callbacks of one event manager exclude each other; a started native parse sends its parsed event
once, a failed start never does; stopping the thumbnail player waits for its callbacks, and the
video output runs one callback at a time, displaying pictures only after a successful setup;
surface callbacks and the methods of the window run on the main thread; the native library drops an
entry point only when its removal was requested; list events carry valid indices.

## Model

| member | source | states |
|---|---|---|
| `VlcObject.VLCObject.Retain` | libvlc/src/org/videolan/libvlc/VLCObject.java:58-64 | Adds a reference and answers true while the count is positive; at zero it changes nothing and answers false |
| `VlcObject.VLCObject.SetEventListener` | libvlc/src/org/videolan/libvlc/VLCObject.java:109-117 | Empties the queue when there was a handler, keeps an old handler, and has a handler exactly while there is a listener |
| `VlcObject.VLCObject.BeginRelease` | libvlc/src/org/videolan/libvlc/VLCObject.java:73-85 | Drops one reference; only the call that brings the count from one to zero clears the listener and must go on to detach and free |
| `VlcObject.VLCObject.DispatchEventFromNative` | libvlc/src/org/videolan/libvlc/VLCObject.java:140-162 | Does nothing on a released object; otherwise posts the event, with the listener in place now, when there is an event, a listener and a handler |
| `VlcObject.FreedOnceAfterDetach` | libvlc/src/org/videolan/libvlc/VLCObject.java:73-92 | In every interleaving the object is freed at most once, with count zero and all events detached, and from then on no thread is in a native or Java callback |
| `VlcObject.OneThreadFinishes` | libvlc/src/org/videolan/libvlc/VLCObject.java:85-91 | However many threads call `release`, at most one is detaching or freeing, and only before the object is freed |
| `VlcObject.NothingAfterZero` | libvlc/src/org/videolan/libvlc/VLCObject.java:58-92 | Once zero, the count stays zero in every continuation; `onEventNative` is not called again and no queued event starts |
| `VlcObject.StartsOnCurrentListener` | libvlc/src/org/videolan/libvlc/VLCObject.java:109-117 | A queued event that starts goes to the listener in place at that moment, and the object is still referenced |
| `VlcObject.NoDeadlock` | libvlc/src/org/videolan/libvlc/VLCObject.java:85-91 | In every reachable state with a thread inside an operation some thread can take a step, although callbacks take the monitor while holding the event lock |
| `VlcObject.EveryOperationCanComplete` | libvlc/src/org/videolan/libvlc/VLCObject.java:73-92 | From every reachable state, and whatever the native filters decide, any operation in progress can be finished by the threads already running, without a new call or event |
| `VlcObject.Preserved` | libvlc/src/org/videolan/libvlc/VLCObject.java:58-162 | Every step of every thread keeps the invariant: who holds the monitor and the event lock, what is registered, whose events are queued |
| `VlcObject.CountIsBalance` | libvlc/src/org/videolan/libvlc/VLCObject.java:58-84 | In every run the count is one, plus the retains, minus the releases that ran, until that is zero; from then on it is zero |
| `VlcObject.HandledIsDispatched` | libvlc/src/org/videolan/libvlc/VLCObject.java:140-143 | `onEventNative` is called once for each event that reaches the object before its references are used up |
| `VlcObject.ListenerIsLatest` | libvlc/src/org/videolan/libvlc/VLCObject.java:109-117 | In every run the listener is the latest one set and the handler the first one set since there was no listener, the main one by default; both go with the last reference |
| `VlcObject.EventsAreKept` | libvlc/src/org/videolan/libvlc/VLCObject.java:140-162 | Between two changes of the listener the events started and queued grow by exactly the events to deliver, in order: none is lost, doubled or invented |
| `VlcObject.RunsWhatWasAsked` | libvlc/jni/libvlcjni-vlcobject.c:171-190 | The block that a thread runs is the one its caller or the event it handles asked for |
| `VlcObject.WholeLife` | libvlc/src/org/videolan/libvlc/VLCObject.java:58-162 | A run in which an event is delivered, and the object is retained, released, detached and freed |
| `EventTable.Owner.AttachEvents` | libvlc/jni/libvlcjni-vlcobject.c:199-221 | Registers every event of the table up to its end mark, once per occurrence; with a missing argument or when already attached nothing changes |
| `EventTable.Owner.NativeDetachEvents` | libvlc/jni/libvlcjni-vlcobject.c:223-240 | Removes the registrations of the attached table and forgets manager and table; does nothing when nothing is attached |
| `EventTable.RegistrationsCount` | libvlc/jni/libvlcjni-vlcobject.c:217-220 | A table registers each of its events as often as it is listed, for this owner and no other |
| `EventTable.DetachUndoesAttach` | libvlc/jni/libvlcjni-vlcobject.c:199-240 | Detaching takes back exactly what attaching added, whatever other owners attached or detached in between |
| `MediaParse.Media.BeginParse` | libvlc/src/org/videolan/libvlc/Media.java:579-586 | Claims the parse exactly when no parse was claimed or done before |
| `MediaParse.Media.PostParse` | libvlc/src/org/videolan/libvlc/Media.java:561-571 | The first call moves the status to parsed and empties the duration, state, type and track caches; later calls change nothing |
| `MediaParse.Media.OnEventNative` | libvlc/src/org/videolan/libvlc/Media.java:476-496 | Each event empties the cache it is about, for a meta the one of a valid id; the parsed event ends the parse |
| `MediaParse.Media.CachedDuration` | libvlc/src/org/videolan/libvlc/Media.java:509-514 | The first block of the getter: the cached duration, zero when released, or the need to ask the native media |
| `MediaParse.Media.CacheDuration` | libvlc/src/org/videolan/libvlc/Media.java:516-519 | The second block: the native answer is cached, whatever is cached by then, and given back |
| `MediaParse.Media.GetDuration` | libvlc/src/org/videolan/libvlc/Media.java:508-520 | An uninterrupted call answers the cached duration, else zero when released, else the native one, which is then cached |
| `MediaParse.Media.CachedMeta` | libvlc/src/org/videolan/libvlc/Media.java:708-717 | The first block of the meta getter: nothing for an unknown id, the cached text, nothing when released, or the need to ask the native media |
| `MediaParse.Media.CacheMeta` | libvlc/src/org/videolan/libvlc/Media.java:719-723 | The second block: the native answer replaces what is cached by then, and is given back |
| `MediaParse.MediaSys.EventCb` | libvlc/jni/libvlcjni-media.c:46-96 | The parsed event lowers both flags and signals the waiter; it and any other event pass only as the flags allow |
| `MediaParse.StatusBits` | libvlc/src/org/videolan/libvlc/Media.java:561-586 | On the bit masks: a claim takes INIT to PARSING, the end of a parse takes PARSING to PARSED, nothing else changes the status |
| `MediaParse.Reachable` | libvlc/src/org/videolan/libvlc/Media.java:561-624 | In every run status, flags, native parse and the place of the claiming thread agree with one phase of the parse |
| `MediaParse.OneParse` | libvlc/src/org/videolan/libvlc/Media.java:579-624 | For any number of threads at most one native parse is started, the two flags are never both set, the status is one of three values, and at most one thread is past the claim |
| `MediaParse.HandledOnce` | libvlc/jni/libvlcjni-media.c:55-64 | The parsed event goes through the filter exactly once, at the change of phase that ends the parse |
| `MediaParse.NoLostWakeUp` | libvlc/jni/libvlcjni-media.c:432-453 | A thread still blocked in `parse` has its event still to come: sent and not yet handled, or about to be sent |
| `MediaParse.SleeperReturns` | libvlc/jni/libvlcjni-media.c:432-453 | From every reachable state a thread blocked in `parse` can be brought to return true, without a new call |
| `MediaParse.TrueOnlyAfterEvent` | libvlc/src/org/videolan/libvlc/Media.java:587-589 | `parse` is about to return true only when its event was handled, once, even if that happened before the start call returned |
| `MediaParse.TrueIff` | libvlc/src/org/videolan/libvlc/Media.java:579-624 | In every run a call of `parse` or `parseAsync` has answered true if and only if it was the first call of all and its native start succeeded; a synchronous one only after its event was handled |
| `MediaParse.LaterCallsAnswerFalse` | libvlc/src/org/videolan/libvlc/Media.java:587-591 | Every other call has answered false |
| `MediaParse.StartedReturns` | libvlc/jni/libvlcjni-media.c:444-452 | From every reachable state a thread whose native start succeeded can be brought to return true, without a new call |
| `MediaParse.SyncEventStaysNative` | libvlc/jni/libvlcjni-media.c:57-59 | The parsed event of a synchronous parse never reaches Java |
| `MediaParse.SilentIff` | libvlc/jni/libvlcjni-media.c:66-73 | At any moment of any run with a flag up: no event reaches Java before the flags are down, in any continuation, if and only if none is past the filter at that moment |
| `MediaParse.EventOvertakesFlag` | libvlc/jni/libvlcjni-media.c:66-73 | A run in which an event passes the filter just before the flag goes up and reaches Java after |
| `MediaCaches.CachesCoherent` | libvlc/src/org/videolan/libvlc/Media.java:476-571 | With no parse in progress and no event on its way, the cached duration and state, and what getters are about to cache, are empty or the native ones, if no cache was emptied in the middle of a getter |
| `MediaCaches.CoherentIff` | libvlc/src/org/videolan/libvlc/Media.java:508-539 | From any moment of any run the duration, state and meta caches stay coherent whatever getters do if and only if they are coherent and every value read and not yet cached is unknown or the native one |
| `MediaCaches.OldReadIsCached` | libvlc/src/org/videolan/libvlc/Media.java:515-519 | From any moment of any run an outdated read leads to a cache that differs from the native media, at rest if the moment was |
| `MediaCaches.CutReadGoesStale` | libvlc/src/org/videolan/libvlc/Media.java:508-520 | A run in which a getter caches the old duration after the invalidation, for good |
| `MediaCaches.MetaKeepsUp` | libvlc/src/org/videolan/libvlc/Media.java:478-484 | In every run in which no change of a meta is suppressed and no getter of it is cut, its cache is empty or holds the native text, or the change is on its way |
| `MediaCaches.MetaChangeEmptiesIff` | libvlc/jni/libvlcjni-media.c:66-83 | At any moment of any run, with a meta cached and its change not yet filtered: in every continuation the cache is empty once no change is under way and no getter fills it, if and only if the parsed event was handled before and the meta is not the artwork |
| `MediaCaches.StaleAfterParse` | libvlc/jni/libvlcjni-media.c:66-70 | For every meta, a run with one whole parse that ends at rest with the old text cached, though its change was sent before the parse began |
| `MediaCaches.StaleArtwork` | libvlc/jni/libvlcjni-media.c:79-83 | A run that ends at rest with an old artwork cached |
| `MediaParse.StuckIffStartFailed` | libvlc/jni/libvlcjni-media.c:440-445 | At rest a media is left in the parsing status if and only if the start of its native parse failed |
| `MediaParse.StuckRun` | libvlc/jni/libvlcjni-media.c:440-445 | A run that ends at rest in the parsing status |
| `MediaParse.FailedStartIsFinal` | libvlc/jni/libvlcjni-media.c:440-445 | After a failed start the media is never parsed and a flag stays up, in every continuation |
| `MediaParse.FailedStartSilentIff` | libvlc/jni/libvlcjni-media.c:440-445 | After a failed start no event ever reaches Java again if and only if none is past the filter |
| `MediaParse.StagesGrow` | libvlc/src/org/videolan/libvlc/Media.java:579-624 | The stage of the one parse never goes back |
| `SparseArrays.KeyIsPosition` | libvlc/src/org/videolan/libvlc/MediaList.java:109-112 | While the keys have no gap, looking up a key gives the position with the same number, and a missing key belongs at the end |
| `SparseArrays.PutKeepsOrder` | libvlc/src/org/videolan/libvlc/MediaList.java:109-112 | A put keeps the keys sorted, as every sparse array does |
| `SparseArrays.SparseArray.Put` | libvlc/src/org/videolan/libvlc/MediaList.java:109-112 | Overwrites the value of a key that is there, inserts the others in order |
| `SparseArrays.PutThenLookup` | libvlc/src/org/videolan/libvlc/MediaList.java:109-112 | After a put its key has the value, and every other key is as before |
| `SparseArrays.PutBeyondGap` | libvlc/src/org/videolan/libvlc/MediaList.java:109-110 | A put one past the next key leaves a gap just before the new last key, and appends the value |
| `SparseArrays.PutInGap` | libvlc/src/org/videolan/libvlc/MediaList.java:109-112 | A put into that gap makes the keys contiguous again and shifts the last value |
| `MediaLists.Media.Release` | libvlc/src/org/videolan/libvlc/VLCObject.java:73-80 | Takes one reference; on a count of zero it changes nothing |
| `MediaLists.MovedShape` | libvlc/src/org/videolan/libvlc/MediaList.java:109-110 | After any number of moves of the shifting loop, read by position and put by key, the array is the old one with the upper slots copied one up, with a gap in the keys at one moment only |
| `MediaLists.MovedAndPlaced` | libvlc/src/org/videolan/libvlc/MediaList.java:106-114 | All moves and the final put together are an insertion, and the keys are contiguous again |
| `MediaLists.CloseOne` | libvlc/src/org/videolan/libvlc/MediaList.java:121-123 | One move of the closing loop copies the next slot down and keeps the keys contiguous |
| `MediaLists.InsertedNatives` | libvlc/src/org/videolan/libvlc/MediaList.java:106-114 | Inserting into the slots inserts into the live media, whatever the read past the end returned |
| `MediaLists.RemovedNatives` | libvlc/src/org/videolan/libvlc/MediaList.java:116-125 | Removing from the slots removes from the live media |
| `MediaLists.MediaList.constructor` | libvlc/src/org/videolan/libvlc/MediaList.java:68-74 | A new list holds one new media for each native item, in order, each with one reference and no two the same |
| `MediaLists.MediaList.InsertMediaFromEvent` | libvlc/src/org/videolan/libvlc/MediaList.java:106-114 | Inserts a new media with one reference at the index; every other slot moves as in a sequence insertion |
| `MediaLists.MediaList.RemoveMediaFromEvent` | libvlc/src/org/videolan/libvlc/MediaList.java:116-125 | Closes the gap left by the media at the index and takes one reference from it |
| `MediaLists.MediaList.OnEventNative` | libvlc/src/org/videolan/libvlc/MediaList.java:131-160 | The live media follow the native insertion or deletion; the event holds a reference to an added media; a locked list fails and an index of -1 is ignored, both without any change |
| `MediaLists.MediaList.GetMediaAt` | libvlc/src/org/videolan/libvlc/MediaList.java:175-181 | Gives the media of the native item at a live index, with one more reference, and throws for any other index |
| `MediaLists.MediaList.OnReleaseNative` | libvlc/src/org/videolan/libvlc/MediaList.java:183-189 | Every media loses one reference for each slot it is in, dead slots included |
| `MediaListRuns.MirrorsNativeList` | libvlc/src/org/videolan/libvlc/MediaList.java:106-160 | After any run of insertions and deletions the live media wrap the native items one by one, and none of them has been freed |
| `MediaListRuns.NativeListIsEdited` | libvlc/src/org/videolan/libvlc/MediaList.java:140-153 | In every run the native list is that left by the insertions and deletions of the run |
| `MediaListRuns.HeldIsTaken` | libvlc/src/org/videolan/libvlc/MediaList.java:175-181 | In every run clients hold exactly what they took and have not given back; getting a live media always takes |
| `MediaListRuns.RetainIff` | libvlc/src/org/videolan/libvlc/VLCObject.java:58-64 | A client can retain any media it has seen, and gets a reference if and only if the media is alive |
| `MediaListRuns.AnnouncedMediaAlive` | libvlc/src/org/videolan/libvlc/MediaList.java:46-59 | The media of a queued or running insertion event is alive, even if it was deleted meanwhile |
| `MediaListRuns.ReferencesAreHeld` | libvlc/src/org/videolan/libvlc/MediaList.java:106-181 | The count of every media equals the number of its holders: the list, queued and running events, clients, dropped events |
| `MediaListRuns.DeletionDropsOneReference` | libvlc/src/org/videolan/libvlc/MediaList.java:116-125 | A deletion takes exactly one reference from the media at its index, which is then off the list |
| `MediaListRuns.OffListForEver` | libvlc/src/org/videolan/libvlc/MediaList.java:116-125 | A media that left the list never comes back, so the list drops its reference only once |
| `MediaListRuns.OutsideReadAtMostOnce` | libvlc/src/org/videolan/libvlc/MediaList.java:109-110 | The array is read past its end at most once in the life of a list; it has a spare slot exactly when something was ever inserted or deleted |
| `MediaListRuns.LeaksIffDropped` | libvlc/src/org/videolan/libvlc/VLCObject.java:109-111 | Some media has more references than the list, its events and the clients hold in exactly the runs that drop an insertion event: nobody listens, or the listener is replaced while it is queued |
| `MediaListRuns.LeakedForEver` | libvlc/src/org/videolan/libvlc/VLCObject.java:109-111 | A leaked media stays leaked, with a positive count, in every continuation |
| `MediaListRuns.LeakingRun` | libvlc/src/org/videolan/libvlc/VLCObject.java:160-161 | A run whose media leaks: an item inserted while nobody listens |
| `MediaListRuns.ReleasedOnceIffNeverDeleted` | libvlc/src/org/videolan/libvlc/MediaList.java:183-189 | The final release gives up each live media once and nothing else if and only if no item was ever deleted and the read past the end, if any, gave nothing |
| `MediaListRuns.ReleasedAgainRun` | libvlc/src/org/videolan/libvlc/MediaList.java:183-189 | A run after which the final release releases a media that was deleted before |
| `MediaListRuns.ReleaseSparesIff` | libvlc/src/org/videolan/libvlc/MediaList.java:183-189 | On counts: the final release leaves a media the references of its remaining holders, clients and the event being run, if and only if there are none or its stale slots are no more than the references of dropped and queued events |
| `MediaListRuns.NeverDeletedSpares` | libvlc/src/org/videolan/libvlc/MediaList.java:183-189 | A list from which nothing was deleted takes no reference from a remaining holder |
| `MediaListRuns.RobbedRun` | libvlc/src/org/videolan/libvlc/MediaList.java:183-189 | A run with every event delivered after which the final release takes the only reference of a client |
| `Thumbnails.RatioOrder` | libvlc/jni/thumbnailer.c:119-123 | Comparing the two aspect ratios is comparing the cross products |
| `Thumbnails.FitIsLetterbox` | libvlc/jni/thumbnailer.c:116-136 | For every good frame and accepted video: the thumbnail fits, fills one dimension, keeps the ratio within one pixel, and opposite borders differ by at most one |
| `Thumbnails.FitByAspectRatio` | libvlc/jni/thumbnailer.c:116-133 | The sizes and the offset computed from the ratios, rounded down, are those of the exact fit, the offset modulo 2^32 |
| `Thumbnails.BufferHoldsRowsIff` | libvlc/jni/thumbnailer.c:138-140 | The rows read lie inside the picture buffer if and only if its size with the spare row is below 2^32 |
| `Thumbnails.BufferCanBeTooSmall` | libvlc/jni/thumbnailer.c:139-140 | A good frame and an accepted video for which the size wraps around and the buffer is too small |
| `Thumbnails.NothingElseWraps` | libvlc/jni/thumbnailer.c:124-136 | In a good frame neither the pitch nor the offset wraps around |
| `Thumbnails.RoomForOneMoreRow` | libvlc/jni/thumbnailer.c:139-140 | A frame whose byte count leaves room for one more row is enough for every accepted video |
| `Thumbnails.PaintedIsLetterbox` | libvlc/jni/thumbnailer.c:214-233 | Each byte inside the centred rectangle is that of its source pixel and every other byte is zero |
| `Thumbnails.RowInFrame` | libvlc/jni/thumbnailer.c:224-233 | The advancing destination offset is where the row belongs, and the row written there stays inside the frame |
| `Thumbnails.CopyPaints` | libvlc/jni/thumbnailer.c:228-233 | Copying one more row paints that row of the letterbox and touches no byte of any other |
| `Thumbnails.NewFrame` | libvlc/jni/thumbnailer.c:214-233 | The copy loop reads inside the picture buffer if and only if the buffer holds all rows, and then turns a zeroed frame into exactly the letterboxed picture |
| `Thumbnails.Thumbnailer.Setup` | libvlc/jni/thumbnailer.c:89-164 | For any frame, accepts exactly the videos within the limits when memory allows, and then holds the fit, each product modulo 2^32, and a buffer of the size so computed; otherwise only the done bit is added |
| `Thumbnails.Thumbnailer.OnEvent` | libvlc/jni/thumbnailer.c:166-177 | Adds the seeked bit from the middle position on, and nothing before |
| `Thumbnails.Thumbnailer.Display` | libvlc/jni/thumbnailer.c:200-241 | Does nothing before both bits are on; then, unless the copy would leave the picture buffer, adds the done bit and leaves the whole letterboxed picture, or no frame without memory |
| `ThumbnailRuns.BitsGrow` | libvlc/jni/thumbnailer.c:152-177 | No bit of the state is ever cleared |
| `ThumbnailRuns.CopiesAfterSeekAndSetup` | libvlc/jni/thumbnailer.c:206-212 | A frame is allocated and copied only after both the seek and the setup |
| `ThumbnailRuns.CopiesStayInBoundsIff` | libvlc/jni/thumbnailer.c:214-233 | In every run all rows of a copy lie inside both buffers if and only if the picture with its spare row fits in 32 bits |
| `ThumbnailRuns.RoomyFrameFits` | libvlc/jni/thumbnailer.c:138-140 | In a frame with room for one more row every video set up in any run fits, so no copy leaves its buffers |
| `ThumbnailRuns.ResultIsComplete` | libvlc/jni/thumbnailer.c:290-332 | In every run a returned thumbnail is a whole letterboxed picture, the one displayed last, and all three bits are on; a frame still being copied is never returned, even after a timeout |
| `ThumbnailRuns.ThumbnailIff` | libvlc/jni/thumbnailer.c:314-332 | When the player is stopped a thumbnail is returned if and only if a done bit was set, the latest frame could be allocated and so can the result; it is then the whole picture displayed last |
| `ThumbnailRuns.BitsAreSet` | libvlc/jni/thumbnailer.c:152-177 | In every run the bits are those set by the callbacks that ran, and there is a frame exactly when the latest allocation succeeded |
| `ThumbnailRuns.EveryPictureCanBeReturned` | libvlc/jni/thumbnailer.c:89-332 | For every frame, every video that fits and every picture of it, a run that returns the letterboxed picture |
| `ThumbnailRuns.CallReturns` | libvlc/jni/thumbnailer.c:290-312 | From every reachable state, unless a copy is leaving its buffer, the call can be brought to return by its deadlines alone |
| `ThumbnailRuns.NothingAfterReturn` | libvlc/jni/thumbnailer.c:314-332 | After the result no callback runs |
| `Windows.AWindow.SetView` | libvlc/src/org/videolan/libvlc/AWindow.java:229-270 | Replaces the helper only in the initial state; a bare invalid surface throws; a replaced helper loses its native surface |
| `Windows.AWindow.OnSurfaceCreated` | libvlc/src/org/videolan/libvlc/AWindow.java:375-392 | Becomes ready, with one notice, when all configured helpers are; throws unless attached with a video helper |
| `Windows.AWindow.SetSurface` | libvlc/src/org/videolan/libvlc/AWindow.java:84-90 | A valid surface is taken only while there is none, and then the window is told |
| `Windows.AWindow.AttachViews` | libvlc/src/org/videolan/libvlc/AWindow.java:318-334 | Attaches the helpers in order and stops where one throws |
| `Windows.AWindow.DetachViews` | libvlc/src/org/videolan/libvlc/AWindow.java:342-367 | Releases and forgets every helper, gives one notice, and does nothing in the initial state |
| `Windows.SurfacesFollowState` | libvlc/src/org/videolan/libvlc/AWindow.java:84-136 | In every run: detached means no native surface is left; ready means every configured helper is ready; attached or ready means a video helper exists |
| `Windows.ReadinessIsNotMissed` | libvlc/src/org/videolan/libvlc/AWindow.java:375-391 | In no run is a window left attached once a surface has come and every configured helper is ready; every native surface is that of its helper |
| `Windows.BothSurfacesCome` | libvlc/src/org/videolan/libvlc/AWindow.java:84-90 | For any two surfaces, a run in which two surface views are attached before their surfaces come, and the window is ready once both have |
| `Windows.SurfaceReachesNative` | libvlc/src/org/videolan/libvlc/AWindow.java:84-90 | A valid surface that comes to an attached helper becomes its native surface if there is none, and no other native surface changes |
| `Windows.AttachGivesSurfaces` | libvlc/src/org/videolan/libvlc/AWindow.java:92-118 | Attaching gives each helper its own valid surface or that of its view, even when it throws |
| `Windows.OneDestroyedPerExit` | libvlc/src/org/videolan/libvlc/AWindow.java:342-367 | There are as many destroyed notices as exits from the attached or ready state |
| `Windows.CreatedAlternates` | libvlc/src/org/videolan/libvlc/AWindow.java:375-392 | Between any two created notices there is a destroyed one |
| `Windows.AttachThrowsIff` | libvlc/src/org/videolan/libvlc/AWindow.java:318-334 | `attachViews` throws if and only if not detached, or no video helper, or both offered surfaces are valid and the subtitles helper is not a surface view |
| `Windows.ThrowingRun` | libvlc/src/org/videolan/libvlc/AWindow.java:318-334 | A run in which both surfaces are configured and valid, and `attachViews` throws |
| `DeferredPlay.MediaPlayer.Play` | libvlc/src/org/videolan/libvlc/MediaPlayer.java:607-627 | Goes on to native playback exactly when already playing or no surface is waited for; the request is recorded either way; before the first playback the audio output and device are restored if `stop` reset them, and audio plugs are listened to unless the user chose |
| `DeferredPlay.MediaPlayer.Stop` | libvlc/src/org/videolan/libvlc/MediaPlayer.java:633-640 | Forgets the request and the playback |
| `DeferredPlay.MediaPlayer.OnSurfacesCreated` | libvlc/src/org/videolan/libvlc/MediaPlayer.java:376-389 | Decides to play exactly for a request that is not playing, and else to enable the video track when there is no video output |
| `DeferredPlay.PlayIsOneBlock` | libvlc/src/org/videolan/libvlc/MediaPlayer.java:607-627 | The three interleaved steps of `play`, uninterrupted, have the effect of the synchronized block |
| `DeferredPlay.Reachable` | libvlc/src/org/videolan/libvlc/MediaPlayer.java:374-389 | In every run a pending request with ready surfaces is about to be served by the callback or by the thread in the monitor |
| `DeferredPlay.WindowIsThatOfWindows` | libvlc/src/org/videolan/libvlc/AWindow.java:318-392 | The window under the steps of the player, with callbacks and parked calls in the midst of an attachment, is at any rest the window that the same calls give in one piece each |
| `DeferredPlay.NoLostPlay` | libvlc/src/org/videolan/libvlc/MediaPlayer.java:374-389 | With no operation under way, a request that is not playing means that the surfaces are not ready |
| `DeferredPlay.CallbackPlays` | libvlc/src/org/videolan/libvlc/MediaPlayer.java:376-386 | When the callback calls `play` the surfaces are ready, so it is never deferred again |
| `DeferredPlay.RequestIsPlayed` | libvlc/src/org/videolan/libvlc/MediaPlayer.java:607-627 | A request not stopped since is playing whenever all is at rest and the surfaces are ready |
| `DeferredPlay.ParkedPlayIsPlayed` | libvlc/src/org/videolan/libvlc/MediaPlayer.java:374-386 | A run in which a `play` is parked, the surface comes, and the callback plays it, natively too |
| `DeferredPlay.StopHolds` | libvlc/src/org/videolan/libvlc/MediaPlayer.java:633-640 | A `stop` while no thread is in `play`, its native call included, holds until `play` is called again, natively too once the call of `stop` has returned |
| `DeferredPlay.StopHoldsIff` | libvlc/src/org/videolan/libvlc/MediaPlayer.java:607-640 | After a `stop` in any run nothing is requested or playing, natively neither once it has returned, in any continuation without a new call of `play` if and only if no thread was in `play`, the callback included |
| `DeferredPlay.StopUndone` | libvlc/src/org/videolan/libvlc/MediaPlayer.java:607-640 | Otherwise, unless a thread yet to enter finds the surfaces waited for, some continuation without a new call has the native player playing after the `stop` has returned |
| `DeferredPlay.NativeAgreesIff` | libvlc/src/org/videolan/libvlc/MediaPlayer.java:624-639 | At any moment of any run, the native player does what the flag says once all native calls under way are made, in whatever order, if and only if each of them agrees with the flag |
| `DeferredPlay.StopOvertakenNatively` | libvlc/src/org/videolan/libvlc/MediaPlayer.java:624-639 | A run that ends at rest with the native player playing and the flag down |
| `DeferredPlay.StopUndoneByCallback` | libvlc/src/org/videolan/libvlc/MediaPlayer.java:379-386 | A run in which a `stop` between the decision of the callback and its `play` is undone |
| `Delivery.AWindow.SendMouseEvent` | libvlc/src/org/videolan/libvlc/AWindow.java:403-414 | Remembers the event, and sends it to a registered handle when it differs from the last one in any of its four parts |
| `Delivery.AWindow.SetWindowSize` | libvlc/src/org/videolan/libvlc/AWindow.java:416-424 | Remembers the size, and sends it to a registered handle when it differs |
| `Delivery.AWindow.RegisterNative` | libvlc/src/org/videolan/libvlc/AWindow.java:509-526 | Throws for a null handle and reports an error for a second one, without any change; otherwise registers, repeats the remembered values that are set, and reports the flags |
| `Delivery.AWindow.UnregisterNative` | libvlc/src/org/videolan/libvlc/AWindow.java:529-535 | Forgets the handle, and throws when there is none |
| `Delivery.DeliveredExactly` | libvlc/src/org/videolan/libvlc/AWindow.java:404-424 | In every run the registered client has received exactly the changes of the values since it registered, in order, after the value then in force if it was a set one |
| `Delivery.SentToTheRegisteredHandle` | libvlc/src/org/videolan/libvlc/AWindow.java:509-535 | Every message went to the handle registered when it was sent, and registrations never overlap |
| `Delivery.HandleIsRegistrant` | libvlc/src/org/videolan/libvlc/AWindow.java:509-535 | In every run the registered handle is the first one to register after the last call to unregister |
| `Delivery.UpToDateIff` | libvlc/src/org/videolan/libvlc/AWindow.java:515-519 | The client knows the latest values if and only if those in force when it registered were set ones or have changed since |
| `Delivery.NothingLost` | libvlc/src/org/videolan/libvlc/AWindow.java:404-424 | With real mouse actions and sizes only, the last values received are the latest ones set |
| `Delivery.NeverSentTwice` | libvlc/src/org/videolan/libvlc/AWindow.java:406-420 | No value is sent twice in a row to the same registration |
| `Delivery.ChangeIsSent` | libvlc/src/org/videolan/libvlc/AWindow.java:404-408 | A sent mouse event reaches the registered handle at once if and only if it differs from the latest one |
| `Delivery.LostAction` | libvlc/src/org/videolan/libvlc/AWindow.java:515-517 | For every mouse event with action -1, a run in which it is lost though sent before and after the registration |
| `Delivery.LostSize` | libvlc/src/org/videolan/libvlc/AWindow.java:518-519 | For every size with a side of -1, a run in which it is lost though set before and after the registration |
| `Delivery.Collapsed` | libvlc/src/org/videolan/libvlc/AWindow.java:404-424 | Leaving out repetitions keeps the first and the last value and leaves no two equal neighbours |
| `Folders.Medialibrary.RemoveFolder` | medialibrary/src/org/videolan/medialibrary/Medialibrary.java:124-132 | Terminates for every list; the requests are exactly the folder and the listed entry points that contain it, the folder itself once and last; inner folders are always requested before outer ones; each request is sent encoded; without initiation nothing happens |
| `Folders.EncodeVLCString` | libvlc/src/org/videolan/libvlc/util/VLCUtil.java:542-553 | Escapes each authorized character by its code and leaves the others |
| `Folders.EncodedIsClean` | libvlc/src/org/videolan/libvlc/util/VLCUtil.java:542-553 | What is sent holds none of the authorized characters |
| `Folders.CleanIsKept` | libvlc/src/org/videolan/libvlc/util/VLCUtil.java:542-553 | A string is sent as it is if and only if it holds none of them |
| `Folders.DecodeUndoesEncode` | libvlc/src/org/videolan/libvlc/util/VLCUtil.java:542-553 | Every escape is the code of its character: decoding gives back any string without percent signs |
| `Folders.PathsBecomeFiles` | medialibrary/src/org/videolan/medialibrary/Tools.java:127-131 | A path is sent as a file location, anything else as it is |
| `Folders.ContainsIff` | medialibrary/src/org/videolan/medialibrary/Medialibrary.java:128 | Containing a folder means having it between something before and something after |
| `Folders.Medialibrary.GetFoldersList` | medialibrary/src/org/videolan/medialibrary/Medialibrary.java:134-138 | The entry points, or none before initiation |
| `Folders.InsideIsLonger` | medialibrary/src/org/videolan/medialibrary/Medialibrary.java:128-129 | A folder descended into is strictly longer, which is why the recursion ends |
| `Folders.ContainsTransitive` | medialibrary/src/org/videolan/medialibrary/Medialibrary.java:128-129 | What contains a folder contains all that the folder contains |
| `Folders.InnerFirstMore` | medialibrary/src/org/videolan/medialibrary/Medialibrary.java:127-131 | A request made after those for all inner folders keeps inner folders ahead of outer ones |
| `Folders.EnterFolder` | medialibrary/src/org/videolan/medialibrary/Medialibrary.java:127-130 | Joining the requests of one nested call to those before covers one more listed folder and nothing outside the folder removed |
| `Filtered.FilteredArray` | medialibrary/jni/utils.cpp:256-289 | For every count: fails if and only if the count is above the number of nulls; otherwise gives the input itself when there is nothing to remove, else the items in order in a new array of the changed size |
| `Filtered.CountNulls` | medialibrary/jni/utils.cpp:260-271 | Counts the nulls |
| `Filtered.KeptIsFullIff` | medialibrary/jni/utils.cpp:272-288 | Whatever the count, no item is lost; the result has no null if and only if the count was right |
| `Filtered.FillFront` | medialibrary/jni/utils.cpp:154-163 | The loops of the search lists put the results in front, in order, and count the failures |
| `Filtered.FillInPlace` | medialibrary/jni/medialibrary.cpp:211-220 | The loops of the listings keep every conversion at its index and count the failures |
| `Filtered.NonNullOfConverted` | medialibrary/jni/medialibrary.cpp:211-220 | The items of the mapped list are the results of mapping and filtering |
| `Filtered.BothLayouts` | medialibrary/jni/utils.cpp:256-289 | From either layout, with the right count, filtering gives the results in order with every slot filled |
| `Filtered.List` | medialibrary/jni/medialibrary.cpp:207-222 | A listing is its media mapped and filtered |
| `Filtered.ListUncounted` | medialibrary/jni/AndroidMediaLibrary.cpp:432-453 | A listing that leaves the counting to `filteredArray` is its media mapped and filtered, the choice by type included |
| `Filtered.ConvertMediaSearchAggregate` | medialibrary/jni/utils.cpp:151-202 | Each of the four search lists is its own input mapped and filtered |
| `Clock.Tools.MillisToString` | medialibrary/src/org/videolan/medialibrary/Tools.java:97-125 | Prints sign and time of the duration in either mode, with the arithmetic of 64-bit and 32-bit integers |
| `Clock.ReadDigits` | medialibrary/src/org/videolan/medialibrary/Tools.java:110-120 | Reading the digits of a number gives the number back |
| `Clock.NoLeadingZero` | medialibrary/src/org/videolan/medialibrary/Tools.java:110-120 | No number but zero starts with a zero |
| `Clock.ReadPadded` | medialibrary/src/org/videolan/medialibrary/Tools.java:117-122 | Minutes and seconds of a clock text have exactly two digits |
| `Clock.SplitOf` | medialibrary/src/org/videolan/medialibrary/Tools.java:104-108 | Hours, minutes and seconds add up to the whole seconds, minutes and seconds below sixty, the hours cut to 32 bits |
| `Clock.ClockRoundTrip` | medialibrary/src/org/videolan/medialibrary/Tools.java:104-123 | The clock text of any long, read with two digits after each colon, gives back its whole seconds if and only if its hours fit a 32-bit integer |
| `Clock.TextRoundTrip` | medialibrary/src/org/videolan/medialibrary/Tools.java:110-116 | So does the text with seconds |
| `Clock.TextWithoutSeconds` | medialibrary/src/org/videolan/medialibrary/Tools.java:115-116 | The text without seconds tells the whole minutes, or the seconds of a non-negative duration below one minute, if and only if the hours fit |
| `Clock.SmallestIsLost` | medialibrary/src/org/videolan/medialibrary/Tools.java:99-102 | The smallest long cannot be negated: its clock text is unreadable and its text tells another duration |
| `Clock.ClockTellsSecondsApart` | medialibrary/src/org/videolan/medialibrary/Tools.java:117-122 | Durations whose hours fit and whose clock texts agree have the same whole seconds |

## Left out

- MediaParse.Media.GetDuration: is the getter as one uninterrupted call; its two blocks are methods of their own, and separate steps in the runs.
- MediaCaches.CachesCoherent: covers the duration and the state; for the metas see `MetaKeepsUp`. The type and the tracks are emptied with them, but no step reads them.
- MediaLists.MediaList.constructor: is `init` with the native lock held throughout; events before `init` takes that lock are not modelled.
- MediaLists.MediaList.InsertMediaFromEvent: has its loop in a method of its own, `ShiftUp`, as the removal has `CloseGap`; the media that the read past the end returns is arbitrary.
- MediaListRuns.MirrorsNativeList: is about the time before the list itself is released, with clients that release only what they retained.
- Thumbnails.FitByAspectRatio: computes with exact numbers, so the rounding of single-precision floats is not modelled; a frame with a side of zero is not either.
- Thumbnails.RatioOrder: is about exact ratios, for the same reason.
- Thumbnails.NewFrame: is the copying part of `thumbnailer_display` in a method of its own. What is read beyond a picture buffer is undefined, so the copy stops there and says so; the frame's byte count is below 2^32.
- Thumbnails.Thumbnailer.Setup: is for frames with positive sides; with a side of zero the original divides floats by zero.
- Thumbnails.Thumbnailer.Display: says nothing of the fields after a copy that would leave the picture buffer, and is for frames whose byte count is below 2^32.
- ThumbnailRuns.ResultIsComplete: models the timed wait as steps that look at the bits or give up at any moment, and a failing Java array allocation as a choice of the last step; a run goes no further than the first row that would be read outside its buffer.
- Windows.AWindow.SetView: stands for the three ways to configure a helper, which are values inside the window here; null arguments and old Android versions are not modelled.
- Windows.AttachThrowsIff: does not model the callback's own exceptions, nor a texture view without a texture.
- DeferredPlay.MediaPlayer.Play: leaves out what the receiver of audio plugs does with a device reported while it is registered.
- DeferredPlay.MediaPlayer.OnSurfacesCreated: leaves out how the video track is then enabled, and the count of video outputs is set by the native side.
- DeferredPlay.StopUndone: a thread that enters while the surfaces are waited for parks the request again; what then plays it is not part of this lemma.
- DeferredPlay.RequestIsPlayed: is about the flag; for the native player see `NativeAgreesIff`.
- DeferredPlay.NoLostPlay: has surface callbacks that do not call back into the window.
- Folders.Medialibrary.RemoveFolder: has Android's `Uri.encode` as a parameter.
- Clock.Tools.MillisToString: has the two ways of printing in methods of their own; locale and the shared builder's use by several threads are not modelled.
- VlcObject.VLCObject.Retain: the count is unbounded, so an overflow of 32 bits is not modelled.
- Weak references, thread attachment and the rest of the native object's allocation: they hold no state that the protocols use.
- `SurfaceTextureThread` and `setBuffersGeometry`: behaviour of the Android looper and of the graphics library.
- The list of window callbacks, `areViewsAttached` and other plain getters: easy members.
- The playback and parsing services, dialogs, renderers and the user interface: wiring around code outside these files.
- Native libvlc and medialibrary internals: an environment with the assumptions stated above.
