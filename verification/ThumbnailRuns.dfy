/**
  The hand-over of `thumbnailer.c`: callbacks of the video output and of the event thread
  against the thread that waits, stops the player and takes the frame. The video output runs
  one callback at a time; stopping the player returns when no callback is running.
 */
module ThumbnailRuns {
  import opened Basics
  import opened Thumbnails

  type Pixels = seq<bv8>

  /** The callback the video output is in. */
  datatype Output =
    | Outside
    | Allocating            // passed the test of thumbnailer_display
    | Copying(rows: nat)
    | Signalling

  datatype Waiter =
    | WaitingVout
    | WaitingDone
    | Stopping
    | Returned(thumbnail: Option<Pixels>)

  datatype State = State(
    frameWidth: nat,
    frameHeight: nat,
    bits: set<Bit>,
    ready: bool,                // the last setup succeeded, so pictures may come
    geometry: Geometry,
    thumb: Pixels,              // thumbData
    frame: Option<Pixels>,      // frameData
    output: Output,
    waiter: Waiter
  )

  datatype Step =
    | Setup(videoWidth: nat, videoHeight: nat, buffer: Pixels)
    | SetupFails
    | Draw(picture: Pixels)
    | Position(atHalf: bool)
    | Display
    | Allocate(memory: bool)
    | CopyRow
    | EndCopy
    | Signal
    | SeeVout
    | VoutTimeout
    | SeeDone
    | DoneTimeout
    | Stop(memory: bool)

  predicate IsNew(s: State) {
    && GoodFrame(s.frameWidth, s.frameHeight)
    && s.bits == {} && !s.ready && s.frame.None?
    && s.output.Outside? && s.waiter.WaitingVout?
  }

  predicate Enabled(s: State, step: Step) {
    match step
    case Setup(vw, vh, buffer) =>
      && s.output.Outside? && !s.waiter.Returned? && Accepted(vw, vh)
      && |buffer| == BufferSize(Fit(s.frameWidth, s.frameHeight, vw, vh))
    case SetupFails => s.output.Outside? && !s.waiter.Returned?
    case Draw(picture) => s.output.Outside? && !s.waiter.Returned? && s.ready && |picture| == |s.thumb|
    case Position(_) => !s.waiter.Returned?
    case Display => s.output.Outside? && !s.waiter.Returned? && s.ready
    case Allocate(_) => s.output.Allocating?
    case CopyRow =>
      && s.output.Copying? && s.output.rows < s.geometry.height && s.frame.Some?
      && RowStart(s.geometry, s.output.rows) + Pitch(s.geometry) <= |s.frame.value|
      && (s.output.rows + 1) * Pitch(s.geometry) <= |s.thumb|
    case EndCopy => s.output.Copying? && s.output.rows >= s.geometry.height
    case Signal => s.output.Signalling?
    case SeeVout => s.waiter.WaitingVout? && VOUT in s.bits
    case VoutTimeout => s.waiter.WaitingVout? && VOUT !in s.bits
    case SeeDone => s.waiter.WaitingDone? && DONE in s.bits
    case DoneTimeout => s.waiter.WaitingDone?
    case Stop(_) => s.waiter.Stopping? && s.output.Outside?
  }

  function Apply(s: State, step: Step): State {
    if !Enabled(s, step) then s else
    match step
    case Setup(vw, vh, buffer) =>
      s.(geometry := Fit(s.frameWidth, s.frameHeight, vw, vh), thumb := buffer, ready := true,
         bits := s.bits + {VOUT})
    case SetupFails => s.(ready := false, bits := s.bits + {DONE})
    case Draw(picture) => s.(thumb := picture)
    case Position(atHalf) => if atHalf then s.(bits := s.bits + {SEEKED}) else s
    case Display =>
      if {SEEKED, VOUT} <= s.bits then s.(output := Allocating) else s
    case Allocate(memory) =>
      if memory
      then s.(frame := Some(seq(FrameSize(s.geometry), _ => 0)), output := Copying(0))
      else s.(frame := None, output := Signalling)
    case CopyRow =>
      s.(frame := Some(RowCopied(s.geometry, s.frame.value, s.thumb, s.output.rows)),
         output := Copying(s.output.rows + 1))
    case EndCopy => s.(output := Signalling)
    case Signal => s.(bits := s.bits + {DONE}, output := Outside)
    case SeeVout => s.(waiter := WaitingDone)
    case VoutTimeout => s.(waiter := Stopping)
    case SeeDone => s.(waiter := Stopping)
    case DoneTimeout => s.(waiter := Stopping)
    case Stop(memory) =>
      s.(waiter := Returned(if DONE in s.bits && s.frame.Some? && memory then s.frame else None))
  }

  function After(start: State, r: Run<Step>): State {
    match r
    case Start => start
    case Then(before, step) => Apply(After(start, before), step)
  }

  predicate Legal(start: State, r: Run<Step>) {
    r.Then? ==> Legal(start, r.before) && Enabled(After(start, r.before), r.last)
  }

  /** The picture and its spare row have a size that fits in 32 bits. */
  predicate Fits(g: Geometry) {
    Pitch(g) * (g.height + 1) < TWO_TO_THE_32
  }

  type Shown = Option<(Geometry, Pixels)>

  /** The picture in place after a step, given the one let through last. */
  function ShownBy(shown: Shown, s: State, step: Step): Shown {
    if Enabled(s, step) && step.Display? && {SEEKED, VOUT} <= s.bits then Some((s.geometry, s.thumb)) else shown
  }

  /** The picture that `thumbnailer_display` let through last, with the geometry it had. */
  function LastShown(start: State, r: Run<Step>): Shown {
    if r.Start? then None else ShownBy(LastShown(start, r.before), After(start, r.before), r.last)
  }

  // ---------------------------------------------------------------------------
  // Invariant
  // ---------------------------------------------------------------------------

  /** The frame shows the whole of a picture. */
  predicate Complete(frame: Pixels, shown: Shown) {
    && shown.Some? && Contained(shown.value.0)
    && Pitch(shown.value.0) * shown.value.0.height <= |shown.value.1|
    && frame == Painted(shown.value.0, shown.value.1, shown.value.0.height)
  }

  predicate Inv(s: State, shown: Shown) {
    && GoodFrame(s.frameWidth, s.frameHeight)
    && (s.ready ==> Contained(s.geometry))
    && (s.frame.Some? || !s.output.Outside? ==> {SEEKED, VOUT} <= s.bits)
    && (!s.output.Outside? ==> s.ready && shown == Some((s.geometry, s.thumb)))
    && (match s.output
        case Copying(rows) =>
          && rows <= s.geometry.height && Pitch(s.geometry) * rows <= |s.thumb|
          && s.frame == Some(Painted(s.geometry, s.thumb, rows))
        case Allocating => true
        case _ => s.frame.Some? ==> Complete(s.frame.value, shown))
    && (s.waiter.Returned? ==>
          s.output.Outside? && (s.waiter.thumbnail.Some? ==> s.waiter.thumbnail == s.frame && DONE in s.bits))
  }

  lemma SetupPreserves(s: State, shown: Shown, step: Step)
    requires Inv(s, shown) && step.Setup? && Enabled(s, step)
    ensures Inv(Apply(s, step), shown)
  {
    FitIsLetterbox(s.frameWidth, s.frameHeight, step.videoWidth, step.videoHeight);
  }

  lemma AllocatePreserves(s: State, shown: Shown, step: Step)
    requires Inv(s, shown) && step.Allocate? && Enabled(s, step)
    ensures Inv(Apply(s, step), shown)
  {
    NothingPainted(s.geometry, s.thumb);
  }

  lemma CopyPreserves(s: State, shown: Shown, step: Step)
    requires Inv(s, shown) && step.CopyRow? && Enabled(s, step)
    ensures Inv(Apply(s, step), shown)
  {
    CopyPaints(s.geometry, s.thumb, s.output.rows);
  }

  lemma OutputPreserves(s: State, shown: Shown, step: Step)
    requires Inv(s, shown) && Enabled(s, step)
    requires step.SetupFails? || step.Draw? || step.Display? || step.EndCopy? || step.Signal?
    ensures Inv(Apply(s, step), ShownBy(shown, s, step))
  {
  }

  lemma WaiterPreserves(s: State, shown: Shown, step: Step)
    requires Inv(s, shown) && Enabled(s, step)
    requires step.Position? || step.SeeVout? || step.VoutTimeout? || step.SeeDone? || step.DoneTimeout? || step.Stop?
    ensures Inv(Apply(s, step), shown)
  {
  }

  lemma Preserved(s: State, shown: Shown, step: Step)
    requires Inv(s, shown) && Enabled(s, step)
    ensures Inv(Apply(s, step), ShownBy(shown, s, step))
  {
    match step
    case Setup(_, _, _) => SetupPreserves(s, shown, step);
    case Allocate(_) => AllocatePreserves(s, shown, step);
    case CopyRow => CopyPreserves(s, shown, step);
    case SetupFails => OutputPreserves(s, shown, step);
    case Draw(_) => OutputPreserves(s, shown, step);
    case Display => OutputPreserves(s, shown, step);
    case EndCopy => OutputPreserves(s, shown, step);
    case Signal => OutputPreserves(s, shown, step);
    case _ => WaiterPreserves(s, shown, step);
  }

  lemma {:induction false} Reachable(start: State, r: Run<Step>)
    requires IsNew(start) && Legal(start, r)
    ensures Inv(After(start, r), LastShown(start, r))
  {
    match r
    case Start =>
    case Then(before, step) =>
      Reachable(start, before);
      Preserved(After(start, before), LastShown(start, before), step);
  }

  // ---------------------------------------------------------------------------
  // What every run keeps
  // ---------------------------------------------------------------------------

  lemma BitsStep(s: State, step: Step)
    ensures s.bits <= Apply(s, step).bits
  {
  }

  /** No bit of the state is ever cleared. */
  lemma {:induction false} BitsGrow(start: State, later: Run<Step>, earlier: Run<Step>)
    requires Legal(start, later) && Extends(later, earlier)
    ensures After(start, earlier).bits <= After(start, later).bits
  {
    if later == earlier {
    } else {
      BitsGrow(start, later.before, earlier);
      BitsStep(After(start, later.before), later.last);
    }
  }

  lemma FitSized(fw: nat, fh: nat, vw: nat, vh: nat)
    requires GoodFrame(fw, fh) && Accepted(vw, vh)
    ensures var g := Fit(fw, fh, vw, vh); Contained(g) && 0 < g.height && FrameSize(g) < TWO_TO_THE_32
  {
    FitIsLetterbox(fw, fh, vw, vh);
    Products(Fit(fw, fh, vw, vh));
  }

  /** What holds of the buffers even when a video does not fit. */
  predicate Sized(s: State) {
    && GoodFrame(s.frameWidth, s.frameHeight)
    && (s.ready ==>
          && Contained(s.geometry) && 0 < s.geometry.height
          && FrameSize(s.geometry) < TWO_TO_THE_32 && |s.thumb| == BufferSize(s.geometry))
    && (!s.output.Outside? ==> s.ready && {SEEKED, VOUT} <= s.bits)
    && (s.output.Copying? ==> s.frame.Some? && |s.frame.value| == FrameSize(s.geometry))
  }

  lemma SizedStep(s: State, step: Step)
    requires Sized(s) && Enabled(s, step)
    ensures Sized(Apply(s, step))
  {
    if step.Setup? {
      FitSized(s.frameWidth, s.frameHeight, step.videoWidth, step.videoHeight);
    }
  }

  lemma {:induction false} SizesHold(start: State, r: Run<Step>)
    requires IsNew(start) && Legal(start, r)
    ensures Sized(After(start, r))
  {
    if r.Start? {
    } else {
      SizesHold(start, r.before);
      SizedStep(After(start, r.before), r.last);
    }
  }

  /** A row is copied only once the seek is over and the video output is set up. */
  lemma CopiesAfterSeekAndSetup(start: State, r: Run<Step>)
    requires IsNew(start) && Legal(start, r) && !After(start, r).output.Outside?
    ensures {SEEKED, VOUT} <= After(start, r).bits
  {
    SizesHold(start, r);
  }

  /** Where a row is read and where it is written lie inside the two buffers. */
  predicate RowInBounds(s: State, row: nat) {
    && s.frame.Some?
    && RowStart(s.geometry, row) + Pitch(s.geometry) <= |s.frame.value|
    && (row + 1) * Pitch(s.geometry) <= |s.thumb|
  }

  /** All rows of the copy stay inside both buffers exactly when the picture fits; what is written always does. */
  lemma CopiesStayInBoundsIff(start: State, r: Run<Step>)
    requires IsNew(start) && Legal(start, r) && After(start, r).output.Copying?
    ensures var s := After(start, r);
            (forall row: nat :: row < s.geometry.height ==> RowInBounds(s, row)) <==> Fits(s.geometry)
  {
    SizesHold(start, r);
    var s := After(start, r);
    BufferHoldsRowsIff(s.geometry);
    if Fits(s.geometry) {
      forall row: nat | row < s.geometry.height ensures RowInBounds(s, row) {
        RowInFrame(s.geometry, row);
        TimesLe(row + 1, s.geometry.height, Pitch(s.geometry));
      }
    } else {
      assert !RowInBounds(s, s.geometry.height - 1);
    }
  }

  lemma GeometrySetUp(s: State, step: Step)
    requires Enabled(s, step)
    ensures var s' := Apply(s, step);
            && s'.frameWidth == s.frameWidth && s'.frameHeight == s.frameHeight
            && (s'.ready ==>
                  if step.Setup? then s'.geometry == Fit(s.frameWidth, s.frameHeight, step.videoWidth, step.videoHeight)
                  else s.ready && s'.geometry == s.geometry)
  {
  }

  lemma RoomyGeometry(fw: nat, fh: nat, vw: nat, vh: nat)
    requires 0 < fh && GoodFrame(fw, fh + 1) && Accepted(vw, vh)
    ensures Fits(Fit(fw, fh, vw, vh))
  {
    RoomForOneMoreRow(fw, fh, vw, vh);
  }

  /** A frame that leaves room for one more row in 32 bits makes every video of every run fit. */
  lemma {:induction false} RoomyFrameFits(start: State, r: Run<Step>)
    requires IsNew(start) && GoodFrame(start.frameWidth, start.frameHeight + 1) && Legal(start, r)
    ensures After(start, r).frameWidth == start.frameWidth && After(start, r).frameHeight == start.frameHeight
    ensures After(start, r).ready ==> Fits(After(start, r).geometry)
  {
    match r
    case Start =>
    case Then(before, step) =>
      RoomyFrameFits(start, before);
      GeometrySetUp(After(start, before), step);
      if step.Setup? {
        RoomyGeometry(start.frameWidth, start.frameHeight, step.videoWidth, step.videoHeight);
      }
  }

  /**
    What is returned is nothing, or a whole letterboxed picture that was displayed after the
    seek; a frame still being copied is never handed over, even if the wait timed out.
   */
  lemma ResultIsComplete(start: State, r: Run<Step>)
    requires IsNew(start) && Legal(start, r)
    requires After(start, r).waiter.Returned? && After(start, r).waiter.thumbnail.Some?
    ensures {SEEKED, VOUT, DONE} <= After(start, r).bits
    ensures Complete(After(start, r).waiter.thumbnail.value, LastShown(start, r))
  {
    Reachable(start, r);
  }

  /** Once returned, the result is final: nothing runs any more. */
  lemma NothingAfterReturn(start: State, r: Run<Step>, step: Step)
    requires IsNew(start) && Legal(start, r) && After(start, r).waiter.Returned?
    ensures !Enabled(After(start, r), step)
  {
    Reachable(start, r);
  }

  // ---------------------------------------------------------------------------
  // A thumbnail is returned
  // ---------------------------------------------------------------------------

  /** Told from the steps: the latest allocation of a frame succeeded. */
  predicate Allocated(r: Run<Step>) {
    r.Then? && if r.last.Allocate? then r.last.memory else Allocated(r.before)
  }

  /** Told from the steps: which bits were set. */
  function Set(r: Run<Step>): set<Bit> {
    match r
    case Start => {}
    case Then(before, step) =>
      Set(before) +
      match step
      case Setup(_, _, _) => {VOUT}
      case SetupFails => {DONE}
      case Position(atHalf) => if atHalf then {SEEKED} else {}
      case Signal => {DONE}
      case _ => {}
  }

  lemma BitsAndFrameStep(s: State, step: Step)
    requires Enabled(s, step)
    ensures var s' := Apply(s, step);
            && s'.bits == s.bits + (match step
                                    case Setup(_, _, _) => {VOUT}
                                    case SetupFails => {DONE}
                                    case Position(atHalf) => if atHalf then {SEEKED} else {}
                                    case Signal => {DONE}
                                    case _ => {})
            && (s'.frame.Some? <==> if step.Allocate? then step.memory else s.frame.Some?)
  {
  }

  lemma {:induction false} BitsAreSet(start: State, r: Run<Step>)
    requires IsNew(start) && Legal(start, r)
    ensures After(start, r).bits == Set(r)
    ensures After(start, r).frame.Some? <==> Allocated(r)
  {
    match r
    case Start =>
    case Then(before, step) =>
      BitsAreSet(start, before);
      BitsAndFrameStep(After(start, before), step);
  }

  /**
    The wait over and the player stopped, a thumbnail is returned exactly when a done bit was set, the
    latest frame could be allocated and so can the result; it is then the whole picture displayed last.
   */
  lemma ThumbnailIff(start: State, r: Run<Step>, memory: bool)
    requires IsNew(start) && Legal(start, Then(r, Stop(memory)))
    ensures var s := After(start, Then(r, Stop(memory)));
            && s.waiter.Returned?
            && (s.waiter.thumbnail.Some? <==> DONE in Set(r) && Allocated(r) && memory)
            && (s.waiter.thumbnail.Some? ==> Complete(s.waiter.thumbnail.value, LastShown(start, r)))
  {
    BitsAreSet(start, r);
    Reachable(start, r);
  }

  /** The rows of a picture that fits are copied, to the last. */
  lemma {:induction false} RowsAreCopied(start: State, r: Run<Step>) returns (end: Run<Step>)
    requires IsNew(start) && Legal(start, r)
    requires After(start, r).output.Copying? && Fits(After(start, r).geometry)
    ensures Legal(start, end) && Set(end) == Set(r) && LastShown(start, end) == LastShown(start, r)
    ensures Allocated(end) == Allocated(r)
    ensures After(start, end) == After(start, r).(output := Signalling, frame := After(start, end).frame)
    decreases After(start, r).geometry.height - After(start, r).output.rows
  {
    var s := After(start, r);
    Reachable(start, r);
    if s.output.rows == s.geometry.height {
      end := Then(r, EndCopy);
    } else {
      CopiesStayInBoundsIff(start, r);
      assert RowInBounds(s, s.output.rows);
      var next := Then(r, CopyRow);
      assert Legal(start, next);
      end := RowsAreCopied(start, next);
    }
  }

  /** Displayed after the seek and the setup, and with memory, a picture is copied whole and the done bit set. */
  lemma DisplayCompletes(start: State, r: Run<Step>) returns (end: Run<Step>)
    requires IsNew(start) && Legal(start, r) && Fits(After(start, r).geometry)
    requires After(start, r).output.Outside? && !After(start, r).waiter.Returned? && After(start, r).ready
    requires {SEEKED, VOUT} <= After(start, r).bits
    ensures Legal(start, end) && DONE in Set(end) && Allocated(end)
    ensures After(start, end).output.Outside? && After(start, end).waiter == After(start, r).waiter
    ensures LastShown(start, end) == Some((After(start, r).geometry, After(start, r).thumb))
  {
    var shown := Then(r, Display);
    assert Legal(start, shown) && After(start, shown).output.Allocating?;
    var begun := Then(shown, Allocate(true));
    assert Legal(start, begun) && After(start, begun).output == Copying(0);
    var copied := RowsAreCopied(start, begun);
    end := Then(copied, Signal);
  }

  lemma WaitEnds(start: State, r: Run<Step>) returns (end: Run<Step>)
    requires IsNew(start) && Legal(start, r) && After(start, r).waiter.WaitingVout?
    requires {VOUT, DONE} <= After(start, r).bits && After(start, r).output.Outside?
    ensures end.Then? && end.last == Stop(true) && Legal(start, end)
    ensures Set(end.before) == Set(r) && Allocated(end.before) == Allocated(r)
    ensures LastShown(start, end.before) == LastShown(start, r)
  {
    var seen := Then(r, SeeVout);
    assert Legal(start, seen) && After(start, seen).waiter.WaitingDone?;
    var done := Then(seen, SeeDone);
    assert Legal(start, done) && After(start, done).waiter.Stopping?;
    end := Then(done, Stop(true));
  }

  lemma SetsUp(s: State, vw: nat, vh: nat, buffer: Pixels)
    requires s.output.Outside? && !s.waiter.Returned? && Accepted(vw, vh)
    requires |buffer| == BufferSize(Fit(s.frameWidth, s.frameHeight, vw, vh))
    ensures var step := Step.Setup(vw, vh, buffer);
            && Enabled(s, step)
            && Apply(s, step) == s.(geometry := Fit(s.frameWidth, s.frameHeight, vw, vh), thumb := buffer,
                                    ready := true, bits := s.bits + {VOUT})
  {
  }

  lemma DrawsAndSeeks(start: State, r: Run<Step>, picture: Pixels) returns (end: Run<Step>)
    requires Legal(start, r) && After(start, r).output.Outside? && !After(start, r).waiter.Returned?
    requires After(start, r).ready && |picture| == |After(start, r).thumb|
    ensures Legal(start, end)
    ensures After(start, end) == After(start, r).(thumb := picture, bits := After(start, r).bits + {SEEKED})
  {
    var drawn := Then(r, Draw(picture));
    assert Legal(start, drawn) && After(start, drawn) == After(start, r).(thumb := picture);
    end := Then(drawn, Position(true));
  }

  /** Set up, sought, and a picture drawn. */
  lemma PictureDrawn(start: State, vw: nat, vh: nat, buffer: Pixels, picture: Pixels) returns (r: Run<Step>)
    requires IsNew(start) && Accepted(vw, vh)
    requires |buffer| == |picture| == BufferSize(Fit(start.frameWidth, start.frameHeight, vw, vh))
    ensures Legal(start, r)
    ensures After(start, r) == start.(geometry := Fit(start.frameWidth, start.frameHeight, vw, vh), thumb := picture,
                                      ready := true, bits := {SEEKED, VOUT})
  {
    SetsUp(start, vw, vh, buffer);
    var setup := Then(Start, Step.Setup(vw, vh, buffer));
    assert After(start, setup.before) == start && Legal(start, setup.before);
    assert Legal(start, setup);
    r := DrawsAndSeeks(start, setup, picture);
    assert start.bits + {VOUT} + {SEEKED} == {SEEKED, VOUT};
  }

  /** In every frame every picture of every video that fits can be returned, letterboxed. */
  lemma EveryPictureCanBeReturned(start: State, vw: nat, vh: nat, picture: Pixels) returns (r: Run<Step>)
    requires IsNew(start) && Accepted(vw, vh) && Fits(Fit(start.frameWidth, start.frameHeight, vw, vh))
    requires |picture| == BufferSize(Fit(start.frameWidth, start.frameHeight, vw, vh))
    ensures var g := Fit(start.frameWidth, start.frameHeight, vw, vh);
            && Legal(start, r) && Contained(g) && Pitch(g) * g.height <= |picture|
            && After(start, r).waiter == Returned(Some(Painted(g, picture, g.height)))
  {
    var drawn := PictureDrawn(start, vw, vh, picture, picture);
    var done := DisplayCompletes(start, drawn);
    BitsAreSet(start, done);
    Reachable(start, done);
    var end := WaitEnds(start, done);
    ThumbnailIff(start, end.before, true);
    r := end;
  }

  /** The callback under way comes to its end. */
  lemma OutputEnds(start: State, r: Run<Step>) returns (end: Run<Step>)
    requires IsNew(start) && Legal(start, r)
    requires After(start, r).output.Copying? ==> Fits(After(start, r).geometry)
    ensures Legal(start, end) && After(start, end).output.Outside?
    ensures After(start, end).waiter == After(start, r).waiter
  {
    var ready := r;
    if After(start, r).output.Allocating? {
      ready := Then(r, Allocate(false));
    } else if After(start, r).output.Copying? {
      ready := RowsAreCopied(start, r);
    }
    assert Legal(start, ready);
    end := if After(start, ready).output.Signalling? then Then(ready, Signal) else ready;
  }

  /** However little happens, the wait ends by its deadlines and the call returns. */
  lemma CallReturns(start: State, r: Run<Step>) returns (end: Run<Step>)
    requires IsNew(start) && Legal(start, r)
    requires After(start, r).output.Copying? ==> Fits(After(start, r).geometry)
    ensures Legal(start, end) && After(start, end).waiter.Returned?
  {
    var idle := OutputEnds(start, r);
    var waited := idle;
    if After(start, idle).waiter.WaitingVout? {
      waited := Then(idle, if VOUT in After(start, idle).bits then SeeVout else VoutTimeout);
    }
    assert Legal(start, waited) && After(start, waited).output.Outside?;
    var over := if After(start, waited).waiter.WaitingDone? then Then(waited, DoneTimeout) else waited;
    assert Legal(start, over) && After(start, over).output.Outside?;
    end := if After(start, over).waiter.Returned? then over else Then(over, Stop(true));
  }
}
