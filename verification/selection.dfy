/** `StatefulList<T>` (src/app.rs:7-51): a list of items with a cursor that
    the arrow keys move. The widget's `ListState` is reduced to the index it
    selects. The cursor clamps at both ends; it never wraps. */
module Selection {
  import opened Wrappers

  datatype StatefulList<T> = StatefulList(selected: Option<nat>, items: seq<T>)
  {
    /** The cursor selects nothing or an existing item. */
    predicate InBounds() {
      selected.Some? ==> selected.value < |items|
    }

    /** `next` computes `items.len() - 1` on `usize` whenever something is
        selected; that subtraction must not underflow. */
    predicate CanAdvance() {
      selected.Some? ==> |items| > 0
    }
  }

  function Min(a: int, b: int): int { if a <= b then a else b }

  function Max(a: int, b: int): int { if a <= b then b else a }

  /** `with_items`: a fresh list selects nothing. */
  function WithItems<T>(items: seq<T>): (l: StatefulList<T>)
    ensures l.selected.None?
    ensures l.items == items
    ensures l.InBounds() && l.CanAdvance()
  {
    StatefulList(None, items)
  }

  /** `next`: select the first item if nothing is selected, otherwise move one
      down, stopping at the last item. */
  function Next<T>(l: StatefulList<T>): (r: StatefulList<T>)
    requires l.CanAdvance()
    ensures r.items == l.items
    ensures l.selected.None? ==> r.selected == Some(0)
    ensures l.selected.Some? && l.InBounds() ==> r.selected == Some(Min(l.selected.value + 1, |l.items| - 1))
    ensures l.selected.Some? && !l.InBounds() ==> r.selected == l.selected
    ensures l.InBounds() && |l.items| > 0 ==> r.InBounds()
    ensures |l.items| == 0 ==> !r.InBounds() && !r.CanAdvance()
  {
    var i := match l.selected
      case Some(i) => if i >= |l.items| - 1 then i else i + 1
      case None => 0;
    l.(selected := Some(i))
  }

  /** `previous`: select the first item if nothing is selected, otherwise move
      one up, stopping at the first item. */
  function Previous<T>(l: StatefulList<T>): (r: StatefulList<T>)
    ensures r.items == l.items
    ensures l.selected.None? ==> r.selected == Some(0)
    ensures l.selected.Some? ==> r.selected == Some(Max(l.selected.value - 1, 0))
    ensures l.InBounds() && |l.items| > 0 ==> r.InBounds()
    ensures |l.items| == 0 ==> !r.InBounds()
  {
    var i := match l.selected
      case Some(i) => if i == 0 then 0 else i - 1
      case None => 0;
    l.(selected := Some(i))
  }

  /** `unselect`: clear the cursor, keep the items. */
  function Unselect<T>(l: StatefulList<T>): (r: StatefulList<T>)
    ensures r.selected.None?
    ensures r.items == l.items
    ensures r.InBounds() && r.CanAdvance()
  {
    l.(selected := None)
  }

  /** The selected item (`get_selected_issue` on the issue list); indexing
      requires the cursor to be in bounds. */
  function Selected<T>(l: StatefulList<T>): (r: Option<T>)
    requires l.InBounds()
    ensures r.Some? <==> l.selected.Some?
    ensures r.Some? ==> r.value in l.items && r.value == l.items[l.selected.value]
  {
    match l.selected
    case Some(i) => Some(l.items[i])
    case None => None
  }

  /** Nothing is selected after `unselect`, whatever was selected before. */
  lemma UnselectSelectsNothing<T>(l: StatefulList<T>)
    ensures Selected(Unselect(l)) == None
  {
  }

  /** Away from the last item, `previous` undoes `next`. */
  lemma PreviousUndoesNext<T>(l: StatefulList<T>)
    requires l.selected.Some? && l.selected.value + 1 < |l.items|
    ensures Previous(Next(l)) == l
  {
  }

  /** Away from the first item, `next` undoes `previous`. */
  lemma NextUndoesPrevious<T>(l: StatefulList<T>)
    requires l.InBounds() && l.selected.Some? && l.selected.value > 0
    ensures Next(Previous(l)) == l
  {
  }

  /** At the last item `next` stays put, and at the first `previous` does:
      the cursor clamps and never wraps around. */
  lemma ClampAtEnds<T>(l: StatefulList<T>)
    requires |l.items| > 0
    ensures var last := l.(selected := Some(|l.items| - 1)); Next(last) == last
    ensures var first := l.(selected := Some(0)); Previous(first) == first
  {
  }

  /** On an empty list `next` and `previous` select index 0, which does not
      exist; after that `next` cannot run without `len() - 1` underflowing. */
  lemma EmptyListLeavesBounds<T>(l: StatefulList<T>)
    requires l.items == [] && l.selected.None?
    ensures Next(l).selected == Some(0) && !Next(l).InBounds() && !Next(l).CanAdvance()
    ensures Previous(l).selected == Some(0) && !Previous(l).InBounds() && !Previous(l).CanAdvance()
  {
  }

  /** `next` applied `n` times. */
  function NextN<T>(l: StatefulList<T>, n: nat): (r: StatefulList<T>)
    requires l.InBounds() && |l.items| > 0
    ensures r.items == l.items
    ensures r.InBounds()
    ensures n > 0 ==> r.selected.Some?
  {
    if n == 0 then l else Next(NextN(l, n - 1))
  }

  /** From no selection, `n` presses of `next` select item `n - 1`, or the
      last item once the list is exhausted. */
  lemma {:induction false} NextNFromNothing<T>(l: StatefulList<T>, n: nat)
    requires |l.items| > 0 && l.selected.None? && n > 0
    ensures NextN(l, n).selected == Some(Min(n - 1, |l.items| - 1))
  {
    if n > 1 {
      NextNFromNothing(l, n - 1);
    }
  }

  /** `previous` applied `n` times. */
  function PreviousN<T>(l: StatefulList<T>, n: nat): (r: StatefulList<T>)
    ensures r.items == l.items
    ensures l.InBounds() && |l.items| > 0 ==> r.InBounds()
    ensures n > 0 ==> r.selected.Some?
  {
    if n == 0 then l else Previous(PreviousN(l, n - 1))
  }

  /** From item `i`, `n` presses of `previous` select item `i - n`, or the
      first item. */
  lemma {:induction false} PreviousNFrom<T>(l: StatefulList<T>, n: nat)
    requires l.selected.Some?
    ensures PreviousN(l, n).selected == Some(Max(l.selected.value - n, 0))
  {
    if n > 0 {
      PreviousNFrom(l, n - 1);
    }
  }
}
