/** The input loop `run_app` (src/main.rs:56-70): draw, read one event, and
    apply the key it carries to the issue list. Moving here calls the list's
    `next`/`previous` directly, never `App::on_down`, so it loads no comments.
    Of the drawing only one fact is kept: the detail pane indexes the item
    under the cursor (src/ui.rs:48-52), which panics if the cursor is out of
    bounds. */
module Events {
  import opened Wrappers
  import opened Selection

  /** A key as the terminal reports it; every key the loop does not look at
      is `OtherKey`. */
  datatype KeyCode = Char(c: char) | Left | OtherKey(name: string)

  /** An input event: a key press, or anything else (mouse, resize, ...). */
  datatype Event = Key(code: KeyCode) | NotKey

  /** The keys the loop acts on. */
  predicate Bound(ev: Event) {
    ev in {Key(Char('q')), Key(Left), Key(Char('j')), Key(Char('k'))}
  }

  /** Result of handling one event: leave the loop, or go on with a list. */
  datatype Step<T> = Quit | Continue(list: StatefulList<T>)

  /** The `match` on the key code: `q` quits, Left clears the selection, `j`
      and `k` move down and up, anything else changes nothing. */
  function Dispatch<T>(ev: Event, l: StatefulList<T>): (s: Step<T>)
    requires ev == Key(Char('j')) ==> l.CanAdvance()
    ensures s.Quit? <==> ev == Key(Char('q'))
    ensures s.Continue? ==> s.list.items == l.items
    ensures ev == Key(Left) ==> s == Continue(Unselect(l))
    ensures ev == Key(Char('j')) ==> s == Continue(Next(l))
    ensures ev == Key(Char('k')) ==> s == Continue(Previous(l))
    ensures !Bound(ev) ==> s == Continue(l)
    ensures s.Continue? && l.InBounds() && |l.items| > 0 ==> s.list.InBounds()
  {
    match ev
    case Key(Char('q')) => Quit
    case Key(Left) => Continue(Unselect(l))
    case Key(Char('j')) => Continue(Next(l))
    case Key(Char('k')) => Continue(Previous(l))
    case _ => Continue(l)
  }

  /** How a run of the loop over a finite stream of events ends: it quit, it
      is waiting for more input, or a draw indexed past the end of the list. */
  datatype Outcome<T> = Quitted(list: StatefulList<T>) | Waiting(list: StatefulList<T>) | Panicked

  /** The loop over `events`: every iteration draws (which needs the cursor in
      bounds) and then handles one event. */
  function RunApp<T>(events: seq<Event>, l: StatefulList<T>): (o: Outcome<T>)
    ensures o.Quitted? ==> Key(Char('q')) in events && o.list.InBounds()
    ensures o.Waiting? ==> Key(Char('q')) !in events
    ensures !o.Panicked? ==> o.list.items == l.items
    ensures o.Waiting? ==> o.list.InBounds()
    ensures l.InBounds() && |l.items| > 0 ==> !o.Panicked?
    decreases |events|
  {
    if !l.InBounds() then Panicked
    else if events == [] then Waiting(l)
    else
      match Dispatch(events[0], l)
      case Quit => Quitted(l)
      case Continue(next) => RunApp(events[1..], next)
  }

  /** Nothing after the first `q` is read. */
  lemma {:induction false} QuitEndsTheLoop<T>(before: seq<Event>, after: seq<Event>, l: StatefulList<T>)
    ensures RunApp(before + [Key(Char('q'))] + after, l) == RunApp(before + [Key(Char('q'))], l)
    decreases |before|
  {
    var q := [Key(Char('q'))];
    if l.InBounds() {
      if before == [] {
        assert (q + after)[0] == Key(Char('q'));
        assert before + q + after == q + after;
      } else {
        assert (before + q + after)[0] == before[0] && (before + q)[0] == before[0];
        assert (before + q + after)[1..] == before[1..] + q + after;
        assert (before + q)[1..] == before[1..] + q;
        match Dispatch(before[0], l)
        case Quit =>
        case Continue(next) => QuitEndsTheLoop(before[1..], after, next);
      }
    }
  }

  /** The first `q` ends the loop with the list as it was when the `q` was
      read: a run quits on `before + [q] + after` (no `q` in `before`)
      exactly when the run over `before` is still waiting, and then with
      that run's list. */
  lemma {:induction false} FirstQuitQuits<T>(before: seq<Event>, after: seq<Event>, l: StatefulList<T>)
    requires Key(Char('q')) !in before
    ensures RunApp(before, l).Waiting? ==>
              RunApp(before + [Key(Char('q'))] + after, l) == Quitted(RunApp(before, l).list)
    ensures RunApp(before, l).Panicked? ==> RunApp(before + [Key(Char('q'))] + after, l) == Panicked
    decreases |before|
  {
    var q := [Key(Char('q'))];
    if l.InBounds() {
      if before == [] {
        assert before + q + after == q + after;
        assert (q + after)[0] == Key(Char('q'));
      } else {
        assert (before + q + after)[0] == before[0];
        assert (before + q + after)[1..] == before[1..] + q + after;
        assert before[0] in before;
        match Dispatch(before[0], l)
        case Quit =>
        case Continue(next) =>
          assert Key(Char('q')) !in before[1..] by {
            assert forall e :: e in before[1..] ==> e in before;
          }
          FirstQuitQuits(before[1..], after, next);
      }
    }
  }

  /** Events the loop does not act on are skipped. */
  lemma IgnoredEventIsSkipped<T>(ev: Event, events: seq<Event>, l: StatefulList<T>)
    requires !Bound(ev) && l.InBounds()
    ensures RunApp([ev] + events, l) == RunApp(events, l)
  {
    assert ([ev] + events)[1..] == events;
  }

  /** On an empty list a single `j` or `k` selects index 0, and the next draw
      indexes an item that does not exist. */
  lemma EmptyListMoveCrashes<T>(l: StatefulList<T>, events: seq<Event>)
    requires l.items == [] && l.selected.None?
    ensures RunApp([Key(Char('j'))] + events, l) == Panicked
    ensures RunApp([Key(Char('k'))] + events, l) == Panicked
  {
    assert ([Key(Char('j'))] + events)[1..] == events;
    assert ([Key(Char('k'))] + events)[1..] == events;
  }

  /** Without `j` and `k` the cursor never leaves the list, even an empty
      one: the loop never panics. */
  lemma {:induction false} NoMoveNoPanic<T>(events: seq<Event>, l: StatefulList<T>)
    requires l.InBounds()
    requires forall k :: 0 <= k < |events| ==> events[k] != Key(Char('j')) && events[k] != Key(Char('k'))
    ensures !RunApp(events, l).Panicked?
    decreases |events|
  {
    if events != [] {
      match Dispatch(events[0], l)
      case Quit =>
      case Continue(next) => NoMoveNoPanic(events[1..], next);
    }
  }
}
