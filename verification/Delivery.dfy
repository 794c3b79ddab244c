/**
  Coalesced delivery of `AWindow.java`: mouse events and window sizes are sent to the native
  side only when they change, and the last ones are repeated to whoever registers later.
 */
module Delivery {
  import opened Basics

  datatype Mouse = Mouse(action: int, button: int, x: int, y: int)

  datatype Size = Size(width: int, height: int)

  const NO_MOUSE := Mouse(-1, -1, -1, -1)
  const NO_SIZE := Size(-1, -1)

  const AWINDOW_REGISTER_ERROR := 0
  const AWINDOW_REGISTER_FLAGS_SUCCESS := 1
  const AWINDOW_REGISTER_FLAGS_HAS_VIDEO_LAYOUT_LISTENER := 2

  /** What the native side sees, in order. */
  datatype Note =
    | Registered(handle: int)
    | OnMouseEvent(handle: int, mouse: Mouse)
    | OnWindowSize(handle: int, size: Size)
    | Unregistered

  datatype State = State(handle: int, mouse: Mouse, size: Size, notes: seq<Note>)

  const NEW_STATE := State(0, NO_MOUSE, NO_SIZE, [])

  // ---------------------------------------------------------------------------
  // AWindow.java
  // ---------------------------------------------------------------------------

  function MouseSent(s: State, m: Mouse): State {
    s.(mouse := m, notes := s.notes + if s.handle != 0 && s.mouse != m then [OnMouseEvent(s.handle, m)] else [])
  }

  function SizeSet(s: State, z: Size): State {
    s.(size := z, notes := s.notes + if s.handle != 0 && s.size != z then [OnWindowSize(s.handle, z)] else [])
  }

  predicate RealMouse(m: Mouse) { m.action != -1 }

  predicate RealSize(z: Size) { z.width != -1 && z.height != -1 }

  function Joined(s: State, handle: int): State {
    if handle == 0 || s.handle != 0 then s else
    s.(handle := handle,
       notes := s.notes + [Registered(handle)]
                + (if RealMouse(s.mouse) then [OnMouseEvent(handle, s.mouse)] else [])
                + (if RealSize(s.size) then [OnWindowSize(handle, s.size)] else []))
  }

  function Left(s: State): State {
    if s.handle == 0 then s else s.(handle := 0, notes := s.notes + [Unregistered])
  }

  class AWindow {
    var mCallbackNativeHandle: int
    var mMouseAction: int
    var mMouseButton: int
    var mMouseX: int
    var mMouseY: int
    var mWindowWidth: int
    var mWindowHeight: int
    var notes: seq<Note>

    function View(): State
      reads this
    {
      State(mCallbackNativeHandle, Mouse(mMouseAction, mMouseButton, mMouseX, mMouseY),
            Size(mWindowWidth, mWindowHeight), notes)
    }

    constructor ()
      ensures View() == NEW_STATE
    {
      mCallbackNativeHandle := 0;
      mMouseAction, mMouseButton, mMouseX, mMouseY := -1, -1, -1, -1;
      mWindowWidth, mWindowHeight := -1, -1;
      notes := [];
    }

    method SendMouseEvent(action: int, button: int, x: int, y: int)
      modifies this
      ensures View() == MouseSent(old(View()), Mouse(action, button, x, y))
      ensures View().mouse == Mouse(action, button, x, y) && View().size == old(View().size)
      ensures mCallbackNativeHandle == old(mCallbackNativeHandle)
    {
      if mCallbackNativeHandle != 0
         && (mMouseAction != action || mMouseButton != button || mMouseX != x || mMouseY != y)
      {
        notes := notes + [OnMouseEvent(mCallbackNativeHandle, Mouse(action, button, x, y))];
      }
      mMouseAction := action;
      mMouseButton := button;
      mMouseX := x;
      mMouseY := y;
    }

    method SetWindowSize(width: int, height: int)
      modifies this
      ensures View() == SizeSet(old(View()), Size(width, height))
      ensures View().size == Size(width, height) && View().mouse == old(View().mouse)
      ensures mCallbackNativeHandle == old(mCallbackNativeHandle)
    {
      if mCallbackNativeHandle != 0 && (mWindowWidth != width || mWindowHeight != height) {
        notes := notes + [OnWindowSize(mCallbackNativeHandle, Size(width, height))];
      }
      mWindowWidth := width;
      mWindowHeight := height;
    }

    /** None stands for the exception thrown for a null handle. */
    method RegisterNative(nativeHandle: int, hasLayoutListener: bool) returns (flags: Option<int>)
      modifies this
      ensures View() == Joined(old(View()), nativeHandle)
      ensures mCallbackNativeHandle == if old(mCallbackNativeHandle) == 0 then nativeHandle else old(mCallbackNativeHandle)
      ensures flags.None? <==> nativeHandle == 0
      ensures flags == Some(AWINDOW_REGISTER_ERROR) <==> nativeHandle != 0 && old(mCallbackNativeHandle) != 0
      ensures nativeHandle != 0 && old(mCallbackNativeHandle) == 0 ==>
                flags == Some(if hasLayoutListener then 3 else 1)
    {
      if nativeHandle == 0 {
        return None;
      }
      if mCallbackNativeHandle != 0 {
        return Some(AWINDOW_REGISTER_ERROR);
      }
      mCallbackNativeHandle := nativeHandle;
      notes := notes + [Registered(nativeHandle)];
      if mMouseAction != -1 {
        notes := notes
          + [OnMouseEvent(mCallbackNativeHandle, Mouse(mMouseAction, mMouseButton, mMouseX, mMouseY))];
      }
      if mWindowWidth != -1 && mWindowHeight != -1 {
        notes := notes + [OnWindowSize(mCallbackNativeHandle, Size(mWindowWidth, mWindowHeight))];
      }
      var f := AWINDOW_REGISTER_FLAGS_SUCCESS;
      if hasLayoutListener {
        f := f + AWINDOW_REGISTER_FLAGS_HAS_VIDEO_LAYOUT_LISTENER;
      }
      flags := Some(f);
    }

    method UnregisterNative() returns (threw: bool)
      modifies this
      ensures View() == Left(old(View()))
      ensures mCallbackNativeHandle == 0
      ensures threw <==> old(mCallbackNativeHandle) == 0
    {
      if mCallbackNativeHandle == 0 {
        return true;
      }
      mCallbackNativeHandle := 0;
      notes := notes + [Unregistered];
      threw := false;
    }
  }

  // ---------------------------------------------------------------------------
  // Runs; each operation holds the native lock, so it is one step
  // ---------------------------------------------------------------------------

  datatype Step =
    | SendMouseEvent(mouse: Mouse)
    | SetWindowSize(size: Size)
    | RegisterNative(handle: int)
    | UnregisterNative

  function Apply(s: State, step: Step): State {
    match step
    case SendMouseEvent(m) => MouseSent(s, m)
    case SetWindowSize(z) => SizeSet(s, z)
    case RegisterNative(h) => Joined(s, h)
    case UnregisterNative => Left(s)
  }

  function After(r: Run<Step>): State {
    match r
    case Start => NEW_STATE
    case Then(before, step) => Apply(After(before), step)
  }

  /** The step is a registration that succeeds. */
  predicate Joins(s: State, step: Step) {
    step.RegisterNative? && step.handle != 0 && s.handle == 0
  }

  // ---------------------------------------------------------------------------
  // What the registered client has received
  // ---------------------------------------------------------------------------

  /** The mouse events received since the last registration. */
  function MiceReceived(notes: seq<Note>): seq<Mouse> {
    if notes == [] then [] else
    var last, front := notes[|notes| - 1], notes[..|notes| - 1];
    match last
    case Registered(_) => []
    case OnMouseEvent(_, m) => MiceReceived(front) + [m]
    case _ => MiceReceived(front)
  }

  function SizesReceived(notes: seq<Note>): seq<Size> {
    if notes == [] then [] else
    var last, front := notes[|notes| - 1], notes[..|notes| - 1];
    match last
    case Registered(_) => []
    case OnWindowSize(_, z) => SizesReceived(front) + [z]
    case _ => SizesReceived(front)
  }

  /** The handle registered after the notes. */
  function Client(notes: seq<Note>): int {
    if notes == [] then 0 else
    match notes[|notes| - 1]
    case Registered(h) => h
    case Unregistered => 0
    case _ => Client(notes[..|notes| - 1])
  }

  /** Each note goes to the client registered at that moment, and clients do not overlap. */
  predicate Addressed(notes: seq<Note>) {
    notes == [] ||
    var last, front := notes[|notes| - 1], notes[..|notes| - 1];
    && Addressed(front)
    && match last
       case Registered(h) => h != 0 && Client(front) == 0
       case Unregistered => Client(front) != 0
       case OnMouseEvent(h, _) => h != 0 && h == Client(front)
       case OnWindowSize(h, _) => h != 0 && h == Client(front)
  }

  // ---------------------------------------------------------------------------
  // What the application has set
  // ---------------------------------------------------------------------------

  /** How a step goes on a history; a registration begins it with the value in force. */
  function NextMice(ms: seq<Mouse>, step: Step, joins: bool): (next: seq<Mouse>)
    requires |ms| > 0
    ensures |next| > 0
  {
    if step.SendMouseEvent? then ms + [step.mouse] else if joins then [ms[|ms| - 1]] else ms
  }

  function NextSizes(zs: seq<Size>, step: Step, joins: bool): (next: seq<Size>)
    requires |zs| > 0
    ensures |next| > 0
  {
    if step.SetWindowSize? then zs + [step.size] else if joins then [zs[|zs| - 1]] else zs
  }

  /** The mouse event in force at the last registration, and those sent since. */
  function Mice(r: Run<Step>): (ms: seq<Mouse>)
    ensures |ms| > 0
  {
    match r
    case Start => [NO_MOUSE]
    case Then(before, step) => NextMice(Mice(before), step, Joins(After(before), step))
  }

  function Sizes(r: Run<Step>): (zs: seq<Size>)
    ensures |zs| > 0
  {
    match r
    case Start => [NO_SIZE]
    case Then(before, step) => NextSizes(Sizes(before), step, Joins(After(before), step))
  }

  /** `s` without the elements that equal the one before them. */
  function Collapse<T(==)>(s: seq<T>): seq<T> {
    if |s| <= 1 then s else
    var front := s[..|s| - 1];
    Collapse(front) + if s[|s| - 1] == s[|s| - 2] then [] else [s[|s| - 1]]
  }

  lemma {:induction false} Collapsed<T>(s: seq<T>)
    requires |s| > 0
    ensures var c := Collapse(s);
            && |c| > 0 && c[0] == s[0] && c[|c| - 1] == s[|s| - 1]
            && (forall i :: 0 < i < |c| ==> c[i - 1] != c[i])
            && (|c| == 1 <==> forall x <- s :: x == s[0])
  {
    if |s| <= 1 {
    } else {
      var front := s[..|s| - 1];
      Collapsed(front);
      assert s == front + [s[|s| - 1]];
      assert s[0] == front[0] && front[|front| - 1] == s[|s| - 2];
      assert s[|s| - 2] in front && s[|s| - 1] in s && forall x <- front :: x in s;
    }
  }

  lemma CollapseMore<T>(s: seq<T>, x: T)
    requires |s| > 0
    ensures Collapse(s + [x]) == Collapse(s) + if x == s[|s| - 1] then [] else [x]
  {
    assert (s + [x])[..|s|] == s;
  }

  // ---------------------------------------------------------------------------
  // Delivery
  // ---------------------------------------------------------------------------

  /** What a client learns of `values`: every change, and the first value too when `announced`. */
  function Expected<T(==)>(values: seq<T>, announced: bool): (e: seq<T>)
    requires |values| > 0
  {
    Collapsed(values);
    if announced then Collapse(values) else Collapse(values)[1..]
  }

  lemma ExpectedMore<T>(values: seq<T>, x: T, announced: bool)
    requires |values| > 0
    ensures Expected(values + [x], announced)
         == Expected(values, announced) + if x == values[|values| - 1] then [] else [x]
  {
    CollapseMore(values, x);
    Collapsed(values);
  }

  lemma NoteAdded(notes: seq<Note>, n: Note)
    ensures MiceReceived(notes + [n]) ==
            if n.Registered? then [] else MiceReceived(notes) + if n.OnMouseEvent? then [n.mouse] else []
    ensures SizesReceived(notes + [n]) ==
            if n.Registered? then [] else SizesReceived(notes) + if n.OnWindowSize? then [n.size] else []
    ensures Client(notes + [n]) ==
            if n.Registered? then n.handle else if n.Unregistered? then 0 else Client(notes)
    ensures Addressed(notes) && (n.Registered? ==> n.handle != 0 && Client(notes) == 0)
            && (n.Unregistered? ==> Client(notes) != 0)
            && (n.OnMouseEvent? || n.OnWindowSize? ==> n.handle != 0 && n.handle == Client(notes))
            ==> Addressed(notes + [n])
  {
    assert (notes + [n])[..|notes|] == notes;
  }

  lemma NotesAtJoin(s: State, h: int)
    requires Addressed(s.notes) && Client(s.notes) == 0 && s.handle == 0 && h != 0
    ensures var notes := Joined(s, h).notes;
            && MiceReceived(notes) == (if RealMouse(s.mouse) then [s.mouse] else [])
            && SizesReceived(notes) == (if RealSize(s.size) then [s.size] else [])
            && Client(notes) == h && Addressed(notes)
  {
    NoteAdded(s.notes, Registered(h));
    var n1 := s.notes + [Registered(h)];
    NoteAdded(n1, OnMouseEvent(h, s.mouse));
    var n2 := n1 + if RealMouse(s.mouse) then [OnMouseEvent(h, s.mouse)] else [];
    assert n2 == if RealMouse(s.mouse) then n1 + [OnMouseEvent(h, s.mouse)] else n1;
    NoteAdded(n2, OnWindowSize(h, s.size));
    assert Joined(s, h).notes == if RealSize(s.size) then n2 + [OnWindowSize(h, s.size)] else n2;
  }

  lemma ExpectedOne<T>(x: T, announced: bool)
    ensures Expected([x], announced) == if announced then [x] else []
  {
  }

  /** The state, in terms of the mouse events set since the last registration. */
  predicate MiceTold(ms: seq<Mouse>, s: State)
    requires |ms| > 0
  {
    && s.mouse == ms[|ms| - 1]
    && (s.handle != 0 ==> MiceReceived(s.notes) == Expected(ms, RealMouse(ms[0])))
  }

  predicate SizesTold(zs: seq<Size>, s: State)
    requires |zs| > 0
  {
    && s.size == zs[|zs| - 1]
    && (s.handle != 0 ==> SizesReceived(s.notes) == Expected(zs, RealSize(zs[0])))
  }

  predicate Routed(s: State) {
    s.handle == Client(s.notes) && Addressed(s.notes)
  }

  lemma MouseTells(ms: seq<Mouse>, zs: seq<Size>, s: State, m: Mouse)
    requires |ms| > 0 && |zs| > 0 && MiceTold(ms, s) && SizesTold(zs, s) && Routed(s)
    ensures MiceTold(ms + [m], MouseSent(s, m)) && SizesTold(zs, MouseSent(s, m)) && Routed(MouseSent(s, m))
  {
    ExpectedMore(ms, m, RealMouse(ms[0]));
    NoteAdded(s.notes, OnMouseEvent(s.handle, m));
    assert s.notes + [] == s.notes;
  }

  lemma SizeTells(ms: seq<Mouse>, zs: seq<Size>, s: State, z: Size)
    requires |ms| > 0 && |zs| > 0 && MiceTold(ms, s) && SizesTold(zs, s) && Routed(s)
    ensures MiceTold(ms, SizeSet(s, z)) && SizesTold(zs + [z], SizeSet(s, z)) && Routed(SizeSet(s, z))
  {
    ExpectedMore(zs, z, RealSize(zs[0]));
    NoteAdded(s.notes, OnWindowSize(s.handle, z));
    assert s.notes + [] == s.notes;
  }

  lemma JoinTells(s: State, h: int)
    requires Routed(s) && s.handle == 0 && h != 0
    ensures MiceTold([s.mouse], Joined(s, h)) && SizesTold([s.size], Joined(s, h)) && Routed(Joined(s, h))
  {
    NotesAtJoin(s, h);
    ExpectedOne(s.mouse, RealMouse(s.mouse));
    ExpectedOne(s.size, RealSize(s.size));
  }

  lemma StepTells(ms: seq<Mouse>, zs: seq<Size>, s: State, step: Step)
    requires |ms| > 0 && |zs| > 0 && MiceTold(ms, s) && SizesTold(zs, s) && Routed(s)
    ensures MiceTold(NextMice(ms, step, Joins(s, step)), Apply(s, step))
    ensures SizesTold(NextSizes(zs, step, Joins(s, step)), Apply(s, step))
    ensures Routed(Apply(s, step))
  {
    match step
    case SendMouseEvent(m) => MouseTells(ms, zs, s, m);
    case SetWindowSize(z) => SizeTells(ms, zs, s, z);
    case RegisterNative(h) =>
      if Joins(s, step) {
        JoinTells(s, h);
      }
    case UnregisterNative => NoteAdded(s.notes, Unregistered);
  }

  lemma {:induction false} Reachable(r: Run<Step>)
    ensures MiceTold(Mice(r), After(r)) && SizesTold(Sizes(r), After(r)) && Routed(After(r))
  {
    match r
    case Start =>
    case Then(before, step) =>
      Reachable(before);
      StepTells(Mice(before), Sizes(before), After(before), step);
  }

  /** Every change reaches the registered client, once and in order; the value in force when it registered too. */
  lemma DeliveredExactly(r: Run<Step>)
    requires After(r).handle != 0
    ensures var ms, zs, notes := Mice(r), Sizes(r), After(r).notes;
            && MiceReceived(notes) == Expected(ms, ms[0].action != -1)
            && SizesReceived(notes) == Expected(zs, zs[0].width != -1 && zs[0].height != -1)
  {
    Reachable(r);
  }

  /** Notes only go to the handle registered when they are sent, and registrations never overlap. */
  lemma SentToTheRegisteredHandle(r: Run<Step>)
    ensures Addressed(After(r).notes) && Client(After(r).notes) == After(r).handle
  {
    Reachable(r);
  }

  /** Who is registered, told from the calls alone: the first to register after the last to unregister. */
  function Registrant(r: Run<Step>): int {
    match r
    case Start => 0
    case Then(before, step) =>
      if step.RegisterNative? && Registrant(before) == 0 then step.handle
      else if step.UnregisterNative? then 0
      else Registrant(before)
  }

  lemma {:induction false} HandleIsRegistrant(r: Run<Step>)
    ensures After(r).handle == Registrant(r)
  {
    match r
    case Start =>
    case Then(before, _) => HandleIsRegistrant(before);
  }

  /** The latest event set in the whole run. */
  function LatestMouse(r: Run<Step>): Option<Mouse> {
    match r
    case Start => None
    case Then(before, step) => if step.SendMouseEvent? then Some(step.mouse) else LatestMouse(before)
  }

  function LatestSize(r: Run<Step>): Option<Size> {
    match r
    case Start => None
    case Then(before, step) => if step.SetWindowSize? then Some(step.size) else LatestSize(before)
  }

  lemma {:induction false} LatestIsLast(r: Run<Step>)
    ensures Mice(r)[|Mice(r)| - 1] == if LatestMouse(r).Some? then LatestMouse(r).value else NO_MOUSE
    ensures Sizes(r)[|Sizes(r)| - 1] == if LatestSize(r).Some? then LatestSize(r).value else NO_SIZE
  {
    if r.Start? {
    } else {
      LatestIsLast(r.before);
    }
  }

  predicate NeverTwiceInARow<T(==)>(s: seq<T>) {
    forall i :: 0 < i < |s| ==> s[i - 1] != s[i]
  }

  lemma ExpectedFacts<T>(values: seq<T>, announced: bool)
    requires |values| > 0
    ensures var e := Expected(values, announced);
            && NeverTwiceInARow(e)
            && (e != [] ==> e[|e| - 1] == values[|values| - 1])
            && (e == [] <==> !announced && forall x <- values :: x == values[0])
  {
    Collapsed(values);
    var c := Collapse(values);
    if !announced {
      assert forall i :: 0 < i < |c[1..]| ==> c[1..][i - 1] == c[i] && c[1..][i] == c[i + 1];
    }
  }

  /** The latest of what was received is `latest`, if anything was set. */
  predicate Knows<T(==)>(received: seq<T>, latest: Option<T>) {
    latest.Some? ==> |received| > 0 && received[|received| - 1] == latest.value
  }

  /** The registered client knows the latest values set. */
  predicate UpToDate(r: Run<Step>) {
    Knows(MiceReceived(After(r).notes), LatestMouse(r)) && Knows(SizesReceived(After(r).notes), LatestSize(r))
  }

  lemma KnowsIff<T>(received: seq<T>, values: seq<T>, announced: bool, latest: Option<T>)
    requires |values| > 0 && received == Expected(values, announced)
    requires latest.Some? ==> latest.value == values[|values| - 1]
    ensures Knows(received, latest) <==> (latest.Some? ==> announced || exists x <- values :: x != values[0])
  {
    ExpectedFacts(values, announced);
  }

  lemma NeverSentTwice(r: Run<Step>)
    requires After(r).handle != 0
    ensures NeverTwiceInARow(MiceReceived(After(r).notes)) && NeverTwiceInARow(SizesReceived(After(r).notes))
  {
    Reachable(r);
    ExpectedFacts(Mice(r), RealMouse(Mice(r)[0]));
    ExpectedFacts(Sizes(r), RealSize(Sizes(r)[0]));
  }

  /** The client that registers while a value with a -1 is in force learns of it only through a change. */
  lemma UpToDateIff(r: Run<Step>)
    requires After(r).handle != 0
    ensures UpToDate(r) <==>
            && (LatestMouse(r).Some? ==> Mice(r)[0].action != -1 || exists m <- Mice(r) :: m != Mice(r)[0])
            && (LatestSize(r).Some? ==>
                  || (Sizes(r)[0].width != -1 && Sizes(r)[0].height != -1)
                  || exists z <- Sizes(r) :: z != Sizes(r)[0])
  {
    Reachable(r);
    LatestIsLast(r);
    KnowsIff(MiceReceived(After(r).notes), Mice(r), RealMouse(Mice(r)[0]), LatestMouse(r));
    KnowsIff(SizesReceived(After(r).notes), Sizes(r), RealSize(Sizes(r)[0]), LatestSize(r));
  }

  /** Real mouse actions and sizes only. */
  predicate RealOnly(r: Run<Step>) {
    r.Then? ==>
      && RealOnly(r.before)
      && (r.last.SendMouseEvent? ==> RealMouse(r.last.mouse))
      && (r.last.SetWindowSize? ==> RealSize(r.last.size))
  }

  /** With real values the first value is real or nothing was set before. */
  lemma {:induction false} RealHistory(r: Run<Step>)
    requires RealOnly(r)
    ensures forall i :: 0 <= i < |Mice(r)| ==> RealMouse(Mice(r)[i]) || (i == 0 && Mice(r)[0] == NO_MOUSE)
    ensures forall i :: 0 <= i < |Sizes(r)| ==> RealSize(Sizes(r)[i]) || (i == 0 && Sizes(r)[0] == NO_SIZE)
    ensures LatestMouse(r).Some? ==> RealMouse(LatestMouse(r).value)
    ensures LatestSize(r).Some? ==> RealSize(LatestSize(r).value)
  {
    if r.Start? {
    } else {
      RealHistory(r.before);
    }
  }

  /** Nothing is lost: with real values the registered client is always up to date. */
  lemma NothingLost(r: Run<Step>)
    requires RealOnly(r) && After(r).handle != 0
    ensures UpToDate(r)
  {
    RealHistory(r);
    LatestIsLast(r);
    UpToDateIff(r);
    assert Mice(r)[|Mice(r)| - 1] in Mice(r) && Sizes(r)[|Sizes(r)| - 1] in Sizes(r);
  }

  /** Every value set that differs from the one before it reaches the client at once. */
  lemma ChangeIsSent(r: Run<Step>, m: Mouse)
    requires After(r).handle != 0
    ensures var before, now := After(r).notes, After(Then(r, SendMouseEvent(m))).notes;
            now == before + if LatestMouse(r) == Some(m) || (LatestMouse(r).None? && m == NO_MOUSE)
                            then [] else [OnMouseEvent(After(r).handle, m)]
  {
    Reachable(r);
    LatestIsLast(r);
  }

  /** An action of -1 set before the registration stays unknown, though it is set again. */
  lemma LostAction(m: Mouse, h: int) returns (r: Run<Step>)
    requires m.action == -1 && h != 0
    ensures After(r).handle == h && LatestMouse(r) == Some(m)
    ensures MiceReceived(After(r).notes) == [] && !UpToDate(r)
  {
    var r1 := Then(Start, SendMouseEvent(m));
    var r2 := Then(r1, RegisterNative(h));
    r := Then(r2, SendMouseEvent(m));
    assert After(r1) == State(0, m, NO_SIZE, []);
    NotesAtJoin(After(r1), h);
    assert After(r) == After(r2);
  }

  /** So does a size with a side of -1. */
  lemma LostSize(z: Size, h: int) returns (r: Run<Step>)
    requires (z.width == -1 || z.height == -1) && h != 0
    ensures After(r).handle == h && LatestSize(r) == Some(z)
    ensures SizesReceived(After(r).notes) == [] && !UpToDate(r)
  {
    var r1 := Then(Start, SetWindowSize(z));
    var r2 := Then(r1, RegisterNative(h));
    r := Then(r2, SetWindowSize(z));
    assert After(r1) == State(0, NO_MOUSE, z, []);
    NotesAtJoin(After(r1), h);
    assert After(r) == After(r2);
  }
}
