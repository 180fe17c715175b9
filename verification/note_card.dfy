/** The `Note` card of src/main.ts:110-193: one bound file, the drag session
    kept in three nullable fields, and the visible surface the pointer
    handlers write (the `data-action` marker and two CSS custom properties).
    Each pointer event is a pure transition over the card. */
module NoteCard {
  import opened Wrappers
  import opened Vault
  import opened Gesture

  /** `xStart`, `yStart` and `dragStart`; `None` stands for both `null` and
      the `undefined` a fresh card starts with. */
  datatype Session = Session(xStart: Option<real>, yStart: Option<real>, dragStart: Option<int>)

  /** The observable state of the display element: `data-action`,
      `--swipe-amount` (px) and `--rotation-amount` (deg). A custom property
      that was never set is `None`. */
  datatype Surface = Surface(marker: Action, swipe: Option<real>, rotation: Option<real>)

  datatype Card = Card(note: NoteFile, session: Session, surface: Surface)

  /** Pointer events; time is the `getTime()` reading, in ms, taken by the handler. */
  datatype Event =
    | PointerDown(x: real, y: real, now: int)
    | PointerMove(x: real, y: real, now: int)
    | PointerUp
    | PointerLeave

  const Idle: Session := Session(None, None, None)

  /** What `mount` creates: only `data-action` is set. */
  const Fresh: Surface := Surface(NONE, None, None)

  /** What pointer-up and pointer-leave leave behind. */
  const Neutral: Surface := Surface(NONE, Some(0.0), Some(0.0))

  /** JavaScript truthiness of a nullable number: present and not zero. */
  predicate TruthyReal(o: Option<real>) { o.Some? && o.value != 0.0 }
  predicate TruthyInt(o: Option<int>) { o.Some? && o.value != 0 }

  /** The guard of the pointer-move handler: all three session fields truthy. */
  predicate Armed(s: Session)
  {
    TruthyReal(s.xStart) && TruthyInt(s.dragStart) && TruthyReal(s.yStart)
  }

  /** The three session fields are either all set or all cleared. */
  predicate Consistent(s: Session)
  {
    (s.xStart.Some? && s.yStart.Some? && s.dragStart.Some?)
    || s == Idle
  }

  /** The surface a move writes for displacement `dx` after `t` ms. */
  function Feedback(dx: real, t: int): (f: Surface)
    ensures f.swipe == Some(dx)
    ensures f.rotation.Some? && (f.rotation.value > 0.0 <==> dx > 0.0)
    ensures f.rotation.Some? && (f.rotation.value == 0.0 <==> dx == 0.0)
    ensures f.marker == RIGHT ==> dx > 0.0
    ensures f.marker == LEFT ==> dx < 0.0
    ensures f.marker == NONE <==> !Triggered(dx, t)
  {
    Surface(Classify(dx, t), Some(dx), Some(Rotation(dx)))
  }

  /** Pointer-up and pointer-leave: clear the session, reset the surface. */
  function Release(c: Card): (c': Card)
    ensures c'.note == c.note
    ensures c'.session == Idle && !Armed(c'.session)
    ensures c'.surface.marker == NONE
    ensures c'.surface.swipe == Some(0.0) && c'.surface.rotation == Some(0.0)
  {
    c.(session := Idle, surface := Neutral)
  }

  /** `mount`: a card bound to `note`, no session, marker NONE. */
  function Mount(note: NoteFile): (c: Card)
    ensures c.note == note
    ensures c.session == Idle && !Armed(c.session)
    ensures c.surface == Fresh && c.surface.marker == NONE
  {
    Card(note, Idle, Fresh)
  }

  /** One pointer event handled by the card. */
  function Step(c: Card, e: Event): (c': Card)
    ensures c'.note == c.note
    ensures Consistent(c.session) ==> Consistent(c'.session)
  {
    match e
    case PointerDown(x, y, now) =>
      c.(session := Session(Some(x), Some(y), Some(now)))
    case PointerMove(x, _, now) =>
      if !Armed(c.session) then c
      else c.(surface := Feedback(x - c.session.xStart.value, now - c.session.dragStart.value))
    case PointerUp => Release(c)
    case PointerLeave => Release(c)
  }

  /** The card after handling `es` in order; no event rebinds the note. */
  function Run(c: Card, es: seq<Event>): (r: Card)
    ensures r.note == c.note
    decreases |es|
  {
    if |es| == 0 then c else Step(Run(c, es[..|es| - 1]), es[|es| - 1])
  }

  predicate AllMoves(es: seq<Event>)
  {
    forall i :: 0 <= i < |es| ==> es[i].PointerMove?
  }

  // ---------------------------------------------------------------------
  // Single events
  // ---------------------------------------------------------------------

  /** A move is a no-op unless `xStart`, `yStart` and `dragStart` are all truthy. */
  lemma IdleMoveIsNoop(c: Card, x: real, y: real, now: int)
    requires !Armed(c.session)
    ensures Step(c, PointerMove(x, y, now)) == c
  {
  }

  /** An armed move keeps the session and writes marker, swipe and rotation
      from the displacement since pointer-down alone: the previous surface
      plays no part. */
  lemma ArmedMoveWritesFeedback(c: Card, x: real, y: real, now: int)
    requires Armed(c.session)
    ensures var c' := Step(c, PointerMove(x, y, now));
      && c'.session == c.session
      && var dx := x - c.session.xStart.value;
      && c'.surface.swipe == Some(dx)
      && c'.surface.rotation == Some(dx * RotationPerPixel)
      && c'.surface.marker == Classify(dx, now - c.session.dragStart.value)
  {
  }

  /** Pointer-down records the origin and start time and leaves the surface as it was. */
  lemma DownRecordsOrigin(c: Card, x: real, y: real, now: int)
    ensures var c' := Step(c, PointerDown(x, y, now));
      && c'.surface == c.surface
      && c'.session == Session(Some(x), Some(y), Some(now))
      && (Armed(c'.session) <==> x != 0.0 && y != 0.0 && now != 0)
  {
  }

  /** A pointer-down at x = 0, y = 0 or time 0 leaves the card disarmed, so the
      next move changes nothing (`!0` is true). */
  lemma DownAtZeroDisarms(c: Card, x: real, y: real, now: int, mx: real, my: real, mnow: int)
    requires x == 0.0 || y == 0.0 || now == 0
    ensures var d := Step(c, PointerDown(x, y, now));
      Step(d, PointerMove(mx, my, mnow)) == d
  {
  }

  /** Pointer-up and pointer-leave are the same transition: from any card they
      clear the session, reset the surface to marker NONE, 0px and 0deg, keep
      the bound note, and commit nothing. */
  lemma UpAndLeaveReset(c: Card)
    ensures Step(c, PointerUp) == Step(c, PointerLeave)
    ensures Step(c, PointerUp) == Card(c.note, Idle, Neutral)
  {
  }

  /** After pointer-up or pointer-leave a move changes nothing. */
  lemma MoveAfterReleaseIsNoop(c: Card, e: Event, x: real, y: real, now: int)
    requires e.PointerUp? || e.PointerLeave?
    ensures Step(Step(c, e), PointerMove(x, y, now)) == Step(c, e)
  {
  }

  // ---------------------------------------------------------------------
  // Event sequences
  // ---------------------------------------------------------------------

  lemma {:induction false} RunAppend(c: Card, a: seq<Event>, b: seq<Event>)
    ensures Run(c, a + b) == Run(Run(c, a), b)
    decreases |b|
  {
    if |b| == 0 {
      assert a + b == a;
    } else {
      var b' := b[..|b| - 1];
      assert (a + b)[..|a + b| - 1] == a + b';
      assert (a + b)[|a + b| - 1] == b[|b| - 1];
      RunAppend(c, a, b');
    }
  }

  /** Every reachable card keeps the three session fields all set or all
      cleared. */
  lemma {:induction false} RunKeepsConsistency(c: Card, es: seq<Event>)
    requires Consistent(c.session)
    ensures Consistent(Run(c, es).session)
    decreases |es|
  {
    if |es| > 0 {
      RunKeepsConsistency(c, es[..|es| - 1]);
    }
  }

  /** Any number of moves on a disarmed card change nothing. */
  lemma {:induction false} DisarmedMovesAreNoops(c: Card, es: seq<Event>)
    requires !Armed(c.session)
    requires AllMoves(es)
    ensures Run(c, es) == c
    decreases |es|
  {
    if |es| > 0 {
      DisarmedMovesAreNoops(c, es[..|es| - 1]);
    }
  }

  /** During a drag, moves never touch the session, and the surface is the one
      the most recent move computes from the pointer-down origin: earlier
      moves leave no trace. */
  lemma {:induction false} LastMoveDecides(c: Card, es: seq<Event>)
    requires Armed(c.session)
    requires AllMoves(es) && |es| > 0
    ensures Run(c, es).session == c.session
    ensures var last := es[|es| - 1];
      Run(c, es).surface
        == Feedback(last.x - c.session.xStart.value, last.now - c.session.dragStart.value)
    decreases |es|
  {
    var init := es[..|es| - 1];
    if |init| > 0 {
      LastMoveDecides(c, init);
    }
    assert Run(c, init).session == c.session;
  }

  /** Whatever happened before, a sequence that ends with pointer-up or
      pointer-leave leaves an idle card with a neutral surface. */
  lemma EndsWithReleaseIsNeutral(c: Card, es: seq<Event>)
    requires |es| > 0
    requires es[|es| - 1].PointerUp? || es[|es| - 1].PointerLeave?
    ensures Run(c, es) == Card(c.note, Idle, Neutral)
  {
  }

  /** One whole drag: pointer-down at a nonzero point and time, then moves.
      The marker is the classification of the last move's displacement and
      elapsed time, and releasing afterwards resets the card. */
  lemma DragSessionOutcome(c: Card, x0: real, y0: real, t0: int, moves: seq<Event>)
    requires x0 != 0.0 && y0 != 0.0 && t0 != 0
    requires AllMoves(moves) && |moves| > 0
    ensures Run(c, [PointerDown(x0, y0, t0)] + moves).surface.marker
      == Classify(moves[|moves| - 1].x - x0, moves[|moves| - 1].now - t0)
    ensures Run(c, [PointerDown(x0, y0, t0)] + moves).surface.swipe
      == Some(moves[|moves| - 1].x - x0)
    ensures Run(c, [PointerDown(x0, y0, t0)] + moves + [PointerUp]) == Card(c.note, Idle, Neutral)
  {
    var down := [PointerDown(x0, y0, t0)];
    RunAppend(c, down, moves);
    var d := Run(c, down);
    assert d == Step(c, PointerDown(x0, y0, t0)) by {
      assert down[..0] == [];
    }
    assert d.session == Session(Some(x0), Some(y0), Some(t0));
    LastMoveDecides(d, moves);
    assert (down + moves + [PointerUp])[..|down + moves|] == down + moves;
  }

  /** A right swipe of 150 px within 120 ms, from a freshly mounted card:
      marker RIGHT, 150px and 7.5deg, and pointer-up resets everything. */
  lemma SwipeRightScenario(note: NoteFile)
    ensures var end := Run(Mount(note), [PointerDown(10.0, 20.0, 1000), PointerMove(160.0, 25.0, 1120)]);
      && end.surface == Surface(RIGHT, Some(150.0), Some(7.5))
      && Step(end, PointerUp) == Card(note, Idle, Neutral)
  {
    var moves := [PointerMove(160.0, 25.0, 1120)];
    assert [PointerDown(10.0, 20.0, 1000)] + moves
      == [PointerDown(10.0, 20.0, 1000), PointerMove(160.0, 25.0, 1120)];
    DragSessionOutcome(Mount(note), 10.0, 20.0, 1000, moves);
  }
}
