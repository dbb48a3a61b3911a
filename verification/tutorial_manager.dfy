/** The tutorial message queue (TutorialManager.cs): messages are queued,
    shown one at a time, and dismissed with the continue key; a message may
    pause the game by setting the time scale to 0 while it is shown.

    The coroutines become state and events. `showing` is the display
    coroutine that is alive (fading in, or waiting for the continue key);
    `tracked` says whether `currentMessageCoroutine` still refers to it;
    `hides` counts the `HideMessage` coroutines still fading out. A fade
    finishing and the continue key being pressed are events. Fades are
    assumed to take at least one frame. Audio, texts and alpha are
    presentation and are left out. */
module TutorialManager {
  import opened Wrappers

  datatype Message = Message(title: string, text: string, pauseGame: bool)

  datatype Phase = FadingIn | AwaitingKey

  datatype Display = Display(msg: Message, phase: Phase)

  datatype Tutorial = Tutorial(
    hasPanel: bool,
    queue: seq<Message>,
    displaying: bool,          // isDisplayingMessage
    showing: Option<Display>,
    tracked: bool,
    hides: nat,
    timeScale: real,           // Time.timeScale, owned here
    originalTimeScale: real,
    panelActive: bool)

  /** The script as written, or with the two corrections listed under
      Findings: a pause only saves a time scale that is not already 0, and
      a finished fade-out goes on to the next queued message. */
  datatype Variant = AsWritten | Corrected

  /** `Awake`: an empty queue, nothing shown, the panel hidden; the saved
      time scale holds C#'s default 0. */
  function Awake(hasPanel: bool, timeScale: real): (t: Tutorial)
    ensures t.queue == [] && !t.displaying && t.showing.None? && t.hides == 0 && !t.panelActive
    ensures t.timeScale == timeScale && t.hasPanel == hasPanel
  {
    Tutorial(hasPanel, [], false, None, false, 0, timeScale, 0.0, false)
  }

  /** `DisplayMessageSequence` up to its first `yield`, which Unity runs
      inside the `StartCoroutine` call: the flag is set, a pausing message
      saves the time scale and stops time, and the panel appears. */
  function BeginDisplay(v: Variant, t: Tutorial, m: Message): (r: Tutorial)
    ensures r.queue == t.queue && r.hides == t.hides && r.hasPanel == t.hasPanel && r.tracked
    ensures !t.hasPanel ==> r == t.(tracked := true)
    ensures t.hasPanel ==> r.displaying && r.showing == Some(Display(m, FadingIn)) && r.panelActive
    ensures t.hasPanel && m.pauseGame ==> r.timeScale == 0.0
    ensures t.hasPanel && m.pauseGame && (v == AsWritten || t.timeScale != 0.0) ==>
      r.originalTimeScale == t.timeScale
    ensures !(t.hasPanel && m.pauseGame) ==> r.timeScale == t.timeScale
    ensures !(t.hasPanel && m.pauseGame && (v == AsWritten || t.timeScale != 0.0)) ==>
      r.originalTimeScale == t.originalTimeScale
  {
    if !t.hasPanel then t.(tracked := true)
    else
      var t1 := t.(displaying := true, showing := Some(Display(m, FadingIn)), tracked := true, panelActive := true);
      if !m.pauseGame then t1
      else if v == AsWritten || t.timeScale != 0.0 then t1.(originalTimeScale := t.timeScale, timeScale := 0.0)
      else t1.(timeScale := 0.0)
  }

  /** `StartCoroutine(HideMessage())` up to its first `yield`: a fade-out
      is now running. */
  function StartHide(t: Tutorial): (r: Tutorial)
    ensures r == if t.hasPanel then t.(hides := t.hides + 1) else t
  {
    if t.hasPanel then t.(hides := t.hides + 1) else t
  }

  /** `ShowNextMessage`: the display coroutine `currentMessageCoroutine`
      refers to is stopped; then the head of the queue is displayed (and
      reported), or, with an empty queue, the panel starts to fade out. */
  function ShowNextMessage(v: Variant, t: Tutorial): (r: (Tutorial, Option<Message>))
    ensures r.0.hasPanel == t.hasPanel
    ensures |t.queue| > 0 ==> r.1 == Some(t.queue[0]) && r.0.queue == t.queue[1..] && r.0.tracked
    ensures |t.queue| > 0 && t.hasPanel ==> r.0.showing == Some(Display(t.queue[0], FadingIn)) && r.0.displaying
    ensures |t.queue| == 0 ==> r.1 == None && r.0.queue == [] && r.0.hides == t.hides + (if t.hasPanel then 1 else 0)
    ensures |t.queue| == 0 ==> r.0.displaying == t.displaying && r.0.timeScale == t.timeScale
  {
    var t1 := if t.tracked then t.(showing := None) else t;
    if |t1.queue| > 0 then (BeginDisplay(v, t1.(queue := t1.queue[1..]), t1.queue[0]), Some(t1.queue[0]))
    else (StartHide(t1), None)
  }

  /** `QueueMessage`: without a panel the message is dropped; otherwise it
      joins the queue, and if nothing is displaying the queue's head is
      shown at once. */
  function QueueMessage(v: Variant, t: Tutorial, m: Message): (r: (Tutorial, Option<Message>))
    ensures !t.hasPanel ==> r == (t, None)
    ensures t.hasPanel && t.displaying ==> r == (t.(queue := t.queue + [m]), None)
    ensures t.hasPanel && !t.displaying ==>
      && r.0.displaying
      && r.1 == Some((t.queue + [m])[0])
      && r.0.queue == (t.queue + [m])[1..]
      && (t.queue == [] ==> r.1 == Some(m) && r.0.queue == [])
  {
    if !t.hasPanel then (t, None)
    else
      var t1 := t.(queue := t.queue + [m]);
      if !t1.displaying then ShowNextMessage(v, t1) else (t1, None)
  }

  /** The continue key: a display waiting for it ends and hands over to
      `ShowNextMessage`; at any other time it does nothing. */
  function Continue(v: Variant, t: Tutorial): (r: (Tutorial, Option<Message>))
    ensures !(t.showing.Some? && t.showing.value.phase == AwaitingKey) ==> r == (t, None)
  {
    match t.showing
    case Some(Display(_, AwaitingKey)) => ShowNextMessage(v, t.(showing := None))
    case _ => (t, None)
  }

  /** The fade-in of the displayed message completing. */
  function FadeInDone(t: Tutorial): (r: Tutorial)
    ensures r.(showing := t.showing) == t
    ensures t.showing.Some? ==> r.showing == Some(t.showing.value.(phase := AwaitingKey))
    ensures t.showing.None? ==> r == t
  {
    match t.showing
    case Some(Display(m, _)) => t.(showing := Some(Display(m, AwaitingKey)))
    case None => t
  }

  /** The rest of `HideMessage`, once its fade-out completes: a stopped
      time scale gets the saved one back, the panel goes away, the flag
      clears and `currentMessageCoroutine` is forgotten. The corrected
      variant then shows the next queued message if no other fade-out is
      pending and no display is alive. */
  function FinishHide(v: Variant, t: Tutorial): (r: (Tutorial, Option<Message>))
    ensures t.hides == 0 ==> r == (t, None)
    ensures t.hides > 0 && v == AsWritten ==>
      && r.1 == None
      && r.0 == t.(hides := t.hides - 1, panelActive := false, displaying := false, tracked := false,
                  timeScale := if t.timeScale == 0.0 then t.originalTimeScale else t.timeScale)
  {
    if t.hides == 0 then (t, None)
    else
      var t1 := t.(hides := t.hides - 1, panelActive := false, displaying := false, tracked := false,
                   timeScale := if t.timeScale == 0.0 then t.originalTimeScale else t.timeScale);
      if v == Corrected && t1.hides == 0 && t1.queue != [] && t1.showing.None? then ShowNextMessage(v, t1)
      else (t1, None)
  }

  /** `ClearAllMessages`: the queue empties; if a message is displaying its
      coroutine (when still referred to) is stopped and the panel starts to
      fade out. */
  function ClearAllMessages(t: Tutorial): (r: Tutorial)
    ensures r.queue == [] && r.timeScale == t.timeScale && r.displaying == t.displaying
    ensures !t.displaying ==> r == t.(queue := [])
    ensures t.displaying && t.hasPanel ==> r.hides == t.hides + 1
    ensures t.displaying && t.tracked ==> r.showing.None?
  {
    var t1 := t.(queue := []);
    if t.displaying then StartHide(if t.tracked then t1.(showing := None) else t1) else t1
  }

  datatype Event = Queue(m: Message) | FadeIn | Key | FadeOut | Clear

  /** The one interleaving the model does not follow: queuing while the
      flag is clear but a display coroutine, no longer referred to, is
      still alive would start a second, concurrent display. */
  predicate Allowed(t: Tutorial, ev: Event) {
    !(ev.Queue? && t.hasPanel && !t.displaying && t.showing.Some?)
  }

  /** What an event adds to the queue. */
  function Arrived(hasPanel: bool, ev: Event): seq<Message> {
    if ev.Queue? && hasPanel then [ev.m] else []
  }

  function Emitted(shown: Option<Message>): seq<Message> {
    match shown
    case None => []
    case Some(m) => [m]
  }

  /** One event; the message, if any, is the one that started displaying.
      Apart from `ClearAllMessages`, the queue behaves as a FIFO: whatever
      is shown comes off its front, and whatever arrives goes on its back. */
  function Step(v: Variant, t: Tutorial, ev: Event): (r: (Tutorial, Option<Message>))
    ensures r.0.hasPanel == t.hasPanel
    ensures !ev.Clear? ==> Emitted(r.1) + r.0.queue == t.queue + Arrived(t.hasPanel, ev)
  {
    match ev
    case Queue(m) => QueueMessage(v, t, m)
    case FadeIn => (FadeInDone(t), None)
    case Key => Continue(v, t)
    case FadeOut => FinishHide(v, t)
    case Clear => (ClearAllMessages(t), None)
  }

  predicate Admissible(v: Variant, t: Tutorial, evs: seq<Event>)
    decreases |evs|
  {
    evs == [] || (Allowed(t, evs[0]) && Admissible(v, Step(v, t, evs[0]).0, evs[1..]))
  }

  /** Applies the events in order, collecting the messages shown. */
  function Run(v: Variant, t: Tutorial, evs: seq<Event>): (r: (Tutorial, seq<Message>))
    ensures r.0.hasPanel == t.hasPanel
    decreases |evs|
  {
    if evs == [] then (t, [])
    else
      var (t1, shown) := Step(v, t, evs[0]);
      var (t2, rest) := Run(v, t1, evs[1..]);
      (t2, Emitted(shown) + rest)
  }

  function AllArrived(hasPanel: bool, evs: seq<Event>): seq<Message>
    decreases |evs|
  {
    if evs == [] then [] else Arrived(hasPanel, evs[0]) + AllArrived(hasPanel, evs[1..])
  }

  predicate NoClear(evs: seq<Event>) {
    forall i :: 0 <= i < |evs| ==> !evs[i].Clear?
  }

  /** Messages are shown in exactly the order they were queued: the
      messages shown followed by those still waiting are the ones waiting
      at the start followed by the ones queued since. */
  lemma {:induction false} ShownInQueueOrder(v: Variant, t: Tutorial, evs: seq<Event>)
    requires NoClear(evs)
    ensures Run(v, t, evs).1 + Run(v, t, evs).0.queue == t.queue + AllArrived(t.hasPanel, evs)
    decreases |evs|
  {
    if evs != [] {
      var (t1, shown) := Step(v, t, evs[0]);
      assert !evs[0].Clear?;
      ShownInQueueOrder(v, t1, evs[1..]);
      var (t2, rest) := Run(v, t1, evs[1..]);
      Splice(Emitted(shown), rest, t2.queue, t1.queue, AllArrived(t.hasPanel, evs[1..]), t.queue, Arrived(t.hasPanel, evs[0]));
    }
  }

  /** One FIFO step followed by the rest of the run is a FIFO run. */
  lemma Splice<T>(shown: seq<T>, rest: seq<T>, q2: seq<T>, q1: seq<T>, later: seq<T>, q0: seq<T>, arrived: seq<T>)
    requires rest + q2 == q1 + later
    requires shown + q1 == q0 + arrived
    ensures (shown + rest) + q2 == q0 + (arrived + later)
  {
    calc {
      (shown + rest) + q2;
      shown + (q1 + later);
      (shown + q1) + later;
      (q0 + arrived) + later;
    }
  }

  /** Continuing past the last message hides the panel: once the fade-out
      finishes, nothing is displaying and the panel is gone. */
  lemma LastMessageHides(v: Variant, t: Tutorial, m: Message)
    requires t.hasPanel && t.showing == Some(Display(m, AwaitingKey)) && t.queue == [] && t.hides == 0
    ensures var t1 := Continue(v, t).0;
      t1.hides == 1 && t1.showing.None? &&
      var t2 := FinishHide(v, t1).0;
      !t2.displaying && !t2.panelActive && t2.hides == 0 && t2.showing.None?
  {
  }

  // ---------------------------------------------------------------------
  // Finding: two pausing messages in a row leave the game stopped
  // ---------------------------------------------------------------------

  const Paused1: Message := Message("Welcome", "Collect trash.", true)
  const Paused2: Message := Message("Weapons", "Trash unlocks weapons.", true)
  const Plain: Message := Message("Tip", "Press TAB for the inventory.", false)

  /** As written, two pausing messages queued back to back, read and
      dismissed, leave the time scale at 0 with nothing left on screen:
      the second display saved the 0 the first one had set. */
  lemma TimeScaleStuckAsWritten()
    ensures var t := Run(AsWritten, Awake(true, 1.0), [Queue(Paused1), Queue(Paused2), FadeIn, Key, FadeIn, Key, FadeOut]).0;
      && t.timeScale == 0.0
      && !t.displaying && t.showing.None? && t.hides == 0 && t.queue == []
  {
    var t0 := Awake(true, 1.0);
    var t1 := Step(AsWritten, t0, Queue(Paused1)).0;
    assert t1.timeScale == 0.0 && t1.originalTimeScale == 1.0;
    var t2 := Step(AsWritten, t1, Queue(Paused2)).0;
    var t3 := Step(AsWritten, t2, FadeIn).0;
    var t4 := Step(AsWritten, t3, Key).0;
    assert t4.originalTimeScale == 0.0;
    var t5 := Step(AsWritten, t4, FadeIn).0;
    var t6 := Step(AsWritten, t5, Key).0;
    var t7 := Step(AsWritten, t6, FadeOut).0;
    assert t7.timeScale == 0.0;
    var evs := [Queue(Paused1), Queue(Paused2), FadeIn, Key, FadeIn, Key, FadeOut];
    assert Run(AsWritten, t6, evs[6..]).0 == t7;
    assert Run(AsWritten, t5, evs[5..]).0 == t7;
    assert Run(AsWritten, t4, evs[4..]).0 == t7;
    assert Run(AsWritten, t3, evs[3..]).0 == t7;
    assert Run(AsWritten, t2, evs[2..]).0 == t7;
    assert Run(AsWritten, t1, evs[1..]).0 == t7;
  }

  // ---------------------------------------------------------------------
  // Finding: a message queued during the fade-out is stranded
  // ---------------------------------------------------------------------

  /** As written, a message queued while the last one fades out stays in
      the queue with nothing displaying it and nothing pending, and no
      event other than a further `QueueMessage` or `ClearAllMessages`
      moves it. */
  lemma QueuedDuringFadeOutStrandedAsWritten()
    ensures var t := Run(AsWritten, Awake(true, 1.0), [Queue(Plain), FadeIn, Key, Queue(Paused1), FadeOut]).0;
      && t.queue == [Paused1] && !t.displaying && t.showing.None? && t.hides == 0
      && Step(AsWritten, t, FadeIn) == (t, None)
      && Step(AsWritten, t, Key) == (t, None)
      && Step(AsWritten, t, FadeOut) == (t, None)
  {
    var t0 := Awake(true, 1.0);
    var t1 := Step(AsWritten, t0, Queue(Plain)).0;
    var t2 := Step(AsWritten, t1, FadeIn).0;
    var t3 := Step(AsWritten, t2, Key).0;
    assert t3.hides == 1 && t3.displaying;
    var t4 := Step(AsWritten, t3, Queue(Paused1)).0;
    assert t4.queue == [Paused1];
    var t5 := Step(AsWritten, t4, FadeOut).0;
    assert t5.queue == [Paused1] && t5.hides == 0;
    var evs := [Queue(Plain), FadeIn, Key, Queue(Paused1), FadeOut];
    assert Run(AsWritten, t4, evs[4..]).0 == t5;
    assert Run(AsWritten, t3, evs[3..]).0 == t5;
    assert Run(AsWritten, t2, evs[2..]).0 == t5;
    assert Run(AsWritten, t1, evs[1..]).0 == t5;
  }

  // ---------------------------------------------------------------------
  // The corrected script
  // ---------------------------------------------------------------------

  /** What the corrected script keeps true, for a game whose time scale
      was `t0` when the tutorial woke: the time scale is `t0` or stopped,
      and when stopped the saved value is `t0`; a stopped game, a set flag
      and a non-empty queue each have a display alive or a fade-out
      pending, which will move things on. */
  predicate CorrectedInv(t: Tutorial, t0: real) {
    && (t.timeScale == t0 || t.timeScale == 0.0)
    && (t.timeScale == 0.0 ==> t.originalTimeScale == t0)
    && (t0 != 0.0 && t.timeScale == 0.0 ==> t.showing.Some? || t.hides > 0)
    && (t.showing.Some? && t.tracked ==> t.displaying)
    && (t.displaying ==> t.showing.Some? || t.hides > 0)
    && (t.queue != [] ==> t.showing.Some? || t.hides > 0)
    && (!t.hasPanel ==> t.queue == [] && !t.displaying && t.showing.None? && t.hides == 0)
  }

  lemma CorrectedInvAtAwake(hasPanel: bool, t0: real)
    ensures CorrectedInv(Awake(hasPanel, t0), t0)
  {
  }

  lemma BeginDisplayKeepsScale(t: Tutorial, t0: real, m: Message)
    requires t.hasPanel
    requires t.timeScale == t0 || t.timeScale == 0.0
    requires t.timeScale == 0.0 ==> t.originalTimeScale == t0
    ensures var r := BeginDisplay(Corrected, t, m);
      && (r.timeScale == t0 || r.timeScale == 0.0)
      && (r.timeScale == 0.0 ==> r.originalTimeScale == t0)
  {
  }

  /** Every allowed event keeps the corrected script's invariant. */
  lemma CorrectedStepKeepsInv(t: Tutorial, t0: real, ev: Event)
    requires CorrectedInv(t, t0) && Allowed(t, ev)
    ensures CorrectedInv(Step(Corrected, t, ev).0, t0)
  {
    match ev {
      case Queue(m) => CorrectedQueueKeepsInv(t, t0, m);
      case FadeIn =>
      case Key => CorrectedKeyKeepsInv(t, t0);
      case FadeOut => CorrectedFadeOutKeepsInv(t, t0);
      case Clear =>
    }
  }

  lemma CorrectedQueueKeepsInv(t: Tutorial, t0: real, m: Message)
    requires CorrectedInv(t, t0) && Allowed(t, Queue(m))
    ensures CorrectedInv(QueueMessage(Corrected, t, m).0, t0)
  {
    if t.hasPanel && !t.displaying {
      BeginDisplayKeepsScale(t.(queue := t.queue + [m])
        .(queue := (t.queue + [m])[1..]), t0, (t.queue + [m])[0]);
    }
  }

  lemma CorrectedKeyKeepsInv(t: Tutorial, t0: real)
    requires CorrectedInv(t, t0)
    ensures CorrectedInv(Continue(Corrected, t).0, t0)
  {
    if t.showing.Some? && t.showing.value.phase == AwaitingKey && t.queue != [] {
      BeginDisplayKeepsScale(t.(showing := None).(queue := t.queue[1..]), t0, t.queue[0]);
    }
  }

  lemma CorrectedFadeOutKeepsInv(t: Tutorial, t0: real)
    requires CorrectedInv(t, t0)
    ensures CorrectedInv(FinishHide(Corrected, t).0, t0)
  {
    if t.hides > 0 {
      var t1 := t.(hides := t.hides - 1, panelActive := false, displaying := false, tracked := false,
                   timeScale := if t.timeScale == 0.0 then t.originalTimeScale else t.timeScale);
      if t1.hides == 0 && t1.queue != [] && t1.showing.None? {
        BeginDisplayKeepsScale(t1.(queue := t1.queue[1..]), t0, t1.queue[0]);
      }
    }
  }

  /** Once the corrected tutorial is idle (nothing alive, nothing pending),
      nothing is queued and the game runs at the time scale it had when
      the tutorial woke. */
  lemma CorrectedIdleRestoresScale(t: Tutorial, t0: real)
    requires CorrectedInv(t, t0) && t.showing.None? && t.hides == 0
    ensures t.timeScale == t0 && t.queue == [] && !t.displaying
  {
  }

  /** The corrected script on the first trace above: the game runs again
      after the two pausing messages. */
  lemma CorrectedResumesAfterTwoPauses()
    ensures Run(Corrected, Awake(true, 1.0), [Queue(Paused1), Queue(Paused2), FadeIn, Key, FadeIn, Key, FadeOut]).0.timeScale == 1.0
  {
    var t0 := Awake(true, 1.0);
    var a1 := Step(Corrected, t0, Queue(Paused1)).0;
    var a2 := Step(Corrected, a1, Queue(Paused2)).0;
    var a3 := Step(Corrected, a2, FadeIn).0;
    var a4 := Step(Corrected, a3, Key).0;
    assert a4.originalTimeScale == 1.0;
    var a5 := Step(Corrected, a4, FadeIn).0;
    var a6 := Step(Corrected, a5, Key).0;
    var a7 := Step(Corrected, a6, FadeOut).0;
    assert a7.timeScale == 1.0;
    var evs := [Queue(Paused1), Queue(Paused2), FadeIn, Key, FadeIn, Key, FadeOut];
    assert Run(Corrected, a6, evs[6..]).0 == a7;
    assert Run(Corrected, a5, evs[5..]).0 == a7;
    assert Run(Corrected, a4, evs[4..]).0 == a7;
    assert Run(Corrected, a3, evs[3..]).0 == a7;
    assert Run(Corrected, a2, evs[2..]).0 == a7;
    assert Run(Corrected, a1, evs[1..]).0 == a7;
  }

  /** The corrected script on the second trace above: the late message is
      shown after the first. */
  lemma CorrectedShowsLateMessage()
    ensures Run(Corrected, Awake(true, 1.0), [Queue(Plain), FadeIn, Key, Queue(Paused1), FadeOut]).1 == [Plain, Paused1]
  {
    var t0 := Awake(true, 1.0);
    var b1 := Step(Corrected, t0, Queue(Plain)).0;
    var b2 := Step(Corrected, b1, FadeIn).0;
    var b3 := Step(Corrected, b2, Key).0;
    var b4 := Step(Corrected, b3, Queue(Paused1)).0;
    var b5 := Step(Corrected, b4, FadeOut).0;
    assert Step(Corrected, t0, Queue(Plain)).1 == Some(Plain);
    assert Step(Corrected, b1, FadeIn).1 == None;
    assert Step(Corrected, b2, Key).1 == None;
    assert Step(Corrected, b3, Queue(Paused1)).1 == None;
    assert Step(Corrected, b4, FadeOut).1 == Some(Paused1);
    var fvs := [Queue(Plain), FadeIn, Key, Queue(Paused1), FadeOut];
    assert Run(Corrected, b4, fvs[4..]).1 == [Paused1];
    assert Run(Corrected, b3, fvs[3..]).1 == [Paused1];
    assert Run(Corrected, b2, fvs[2..]).1 == [Paused1];
    assert Run(Corrected, b1, fvs[1..]).1 == [Paused1];
  }
}
