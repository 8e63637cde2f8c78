/** Spatial keyboard focus (src/extensions/focus.rs): the widgets drawn in
    the last frame are recorded as (index, x, y) entries; Shift+arrow moves
    the focus cursor to the nearest entry in that direction. */
module Focus {
  import opened Common

  datatype Direction = Left | Right | Up | Down

  /** One rendered widget: its position in the widget list and its top-left corner. */
  datatype Entry = Entry(index: nat, x: U16, y: U16)

  /** A search: the direction, the current position and the focus cursor. */
  datatype Query = Query(dir: Direction, cx: U16, cy: U16, cursor: nat)

  function Gap(a: U16, b: U16): U16 { if a >= b then a - b else b - a }

  predicate Horizontal(d: Direction) { d.Left? || d.Right? }

  /** The guard of each direction's arm: strictly on the requested side. */
  predicate OnSide(q: Query, e: Entry)
  {
    match q.dir
    case Right => e.x > q.cx
    case Left => e.x < q.cx
    case Down => e.y > q.cy
    case Up => e.y < q.cy
  }

  /** Entries the search considers: on the requested side, and not the cursor's own. */
  predicate Candidate(q: Query, e: Entry) { e.index != q.cursor && OnSide(q, e) }

  /** On the same row (Left/Right) or the same column (Up/Down). */
  predicate Aligned(q: Query, e: Entry) { if Horizontal(q.dir) then e.y == q.cy else e.x == q.cx }

  predicate AlignedCandidate(q: Query, e: Entry) { Candidate(q, e) && Aligned(q, e) }

  /** Distance along the direction of travel. */
  function Axial(q: Query, e: Entry): U16 { if Horizontal(q.dir) then Gap(e.x, q.cx) else Gap(e.y, q.cy) }

  /** Squared Euclidean distance, `dx * dx + dy * dy`. */
  function Dist(q: Query, e: Entry): nat { Gap(e.x, q.cx) * Gap(e.x, q.cx) + Gap(e.y, q.cy) * Gap(e.y, q.cy) }

  predicate HasCandidate(q: Query, es: seq<Entry>) { exists k :: 0 <= k < |es| && Candidate(q, es[k]) }

  predicate HasAligned(q: Query, es: seq<Entry>) { exists k :: 0 <= k < |es| && AlignedCandidate(q, es[k]) }

  /** `es[k]` is the earliest aligned candidate at the smallest axial distance. */
  predicate AlignedBest(q: Query, es: seq<Entry>, k: nat)
  {
    k < |es| && AlignedCandidate(q, es[k]) &&
    (forall j :: 0 <= j < |es| && AlignedCandidate(q, es[j]) ==> Axial(q, es[k]) <= Axial(q, es[j])) &&
    (forall j :: 0 <= j < k && AlignedCandidate(q, es[j]) ==> Axial(q, es[k]) < Axial(q, es[j]))
  }

  /** `es[k]` is a candidate with the smallest squared distance, and the
      smallest index among those. */
  predicate Nearest(q: Query, es: seq<Entry>, k: nat)
  {
    k < |es| && Candidate(q, es[k]) &&
    forall j :: 0 <= j < |es| && Candidate(q, es[j]) ==>
      Dist(q, es[k]) < Dist(q, es[j]) || (Dist(q, es[k]) == Dist(q, es[j]) && es[k].index <= es[j].index)
  }

  /** The index the search should return: aligned entries first, then the nearest. */
  predicate Chosen(q: Query, es: seq<Entry>, v: nat)
  {
    if HasAligned(q, es) then exists k: nat :: k < |es| && AlignedBest(q, es, k) && es[k].index == v
    else exists k: nat :: k < |es| && Nearest(q, es, k) && es[k].index == v
  }

  /** The `u16` sum `dx * dx + dy * dy` does not overflow for any entry the
      search actually measures: a candidate off the row (column) that comes
      before every aligned candidate. */
  predicate Fits(q: Query, es: seq<Entry>)
  {
    forall k :: 0 <= k < |es| && Candidate(q, es[k]) && !Aligned(q, es[k]) && !HasAligned(q, es[..k]) ==>
      Dist(q, es[k]) <= U16_MAX
  }

  /** Entries are positions in a `Vec`, so they are below `usize::MAX`. */
  predicate Indexable(es: seq<Entry>) { forall k :: 0 <= k < |es| ==> es[k].index < USIZE_MAX }

  function UnwrapOr(o: Option<nat>, default: nat): nat { if o.Some? then o.value else default }

  /** The chosen index is unique. */
  lemma ChosenUnique(q: Query, es: seq<Entry>, v: nat, w: nat)
    requires Chosen(q, es, v) && Chosen(q, es, w)
    ensures v == w
  {
    if HasAligned(q, es) {
      var a: nat :| a < |es| && AlignedBest(q, es, a) && es[a].index == v;
      var b: nat :| b < |es| && AlignedBest(q, es, b) && es[b].index == w;
    } else {
      var a: nat :| a < |es| && Nearest(q, es, a) && es[a].index == v;
      var b: nat :| b < |es| && Nearest(q, es, b) && es[b].index == w;
    }
  }

  /** The search state after a prefix of the entries. */
  ghost predicate Searched(q: Query, es: seq<Entry>, closestIndex: Option<nat>, closest: U16, found: bool, best: nat)
  {
    found == HasAligned(q, es) &&
    (closestIndex.None? <==> !HasCandidate(q, es)) &&
    (closestIndex.None? ==> closest == U16_MAX) &&
    (closestIndex.Some? ==> best < |es| && closestIndex.value == es[best].index) &&
    (closestIndex.Some? && found ==> AlignedBest(q, es, best) && closest == Axial(q, es[best])) &&
    (closestIndex.Some? && !found ==> Nearest(q, es, best) && closest == Dist(q, es[best]))
  }

  lemma SearchedEmpty(q: Query)
    ensures Searched(q, [], None, U16_MAX, false, 0)
  {
  }

  lemma SearchedSkip(q: Query, es: seq<Entry>, e: Entry, ci: Option<nat>, c: U16, found: bool, best: nat)
    requires Searched(q, es, ci, c, found, best) && !Candidate(q, e)
    ensures Searched(q, es + [e], ci, c, found, best)
  {
    var es' := es + [e];
    assert forall j :: 0 <= j < |es| ==> es'[j] == es[j];
    if HasCandidate(q, es') {
      var k :| 0 <= k < |es'| && Candidate(q, es'[k]);
      assert k < |es|;
    }
    if HasAligned(q, es') {
      var k :| 0 <= k < |es'| && AlignedCandidate(q, es'[k]);
      assert k < |es|;
    }
  }

  lemma SearchedAlignedTake(q: Query, es: seq<Entry>, e: Entry, ci: Option<nat>, c: U16, found: bool, best: nat)
    requires Searched(q, es, ci, c, found, best) && AlignedCandidate(q, e)
    requires !found || Axial(q, e) < c
    ensures Searched(q, es + [e], Some(e.index), Axial(q, e), true, |es|)
  {
    var es' := es + [e];
    assert forall j :: 0 <= j < |es| ==> es'[j] == es[j];
    assert es'[|es|] == e;
    forall j | 0 <= j < |es'| && AlignedCandidate(q, es'[j]) && j != |es|
      ensures Axial(q, e) < Axial(q, es'[j])
    {
      assert AlignedCandidate(q, es[j]);
      assert HasAligned(q, es);
    }
  }

  lemma SearchedAlignedKeep(q: Query, es: seq<Entry>, e: Entry, ci: Option<nat>, c: U16, found: bool, best: nat)
    requires Searched(q, es, ci, c, found, best) && AlignedCandidate(q, e)
    requires found && Axial(q, e) >= c
    ensures Searched(q, es + [e], ci, c, found, best)
  {
    var es' := es + [e];
    assert forall j :: 0 <= j < |es| ==> es'[j] == es[j];
    assert es'[|es|] == e;
    assert HasCandidate(q, es) by { var k :| 0 <= k < |es| && AlignedCandidate(q, es[k]); }
  }

  lemma SearchedOffTake(q: Query, es: seq<Entry>, e: Entry, ci: Option<nat>, c: U16, found: bool, best: nat)
    requires Searched(q, es, ci, c, found, best) && Candidate(q, e) && !Aligned(q, e) && !found
    requires Dist(q, e) <= U16_MAX
    requires Dist(q, e) < c || (Dist(q, e) == c && e.index < UnwrapOr(ci, USIZE_MAX))
    ensures Searched(q, es + [e], Some(e.index), Dist(q, e), false, |es|)
  {
    var es' := es + [e];
    assert forall j :: 0 <= j < |es| ==> es'[j] == es[j];
    assert es'[|es|] == e;
    StillUnaligned(q, es, e);
    forall j | 0 <= j < |es'| && Candidate(q, es'[j])
      ensures Dist(q, e) < Dist(q, es'[j]) || (Dist(q, e) == Dist(q, es'[j]) && e.index <= es'[j].index)
    {
      if j < |es| {
        assert Candidate(q, es[j]);
        assert HasCandidate(q, es);
      }
    }
  }

  /** An entry off the row (column) does not make an aligned candidate appear. */
  lemma StillUnaligned(q: Query, es: seq<Entry>, e: Entry)
    requires !HasAligned(q, es) && !AlignedCandidate(q, e)
    ensures !HasAligned(q, es + [e])
  {
    var es' := es + [e];
    forall k | 0 <= k < |es'| ensures !AlignedCandidate(q, es'[k]) {
      if k < |es| { assert es'[k] == es[k]; }
    }
  }

  lemma SearchedOffAfterAligned(q: Query, es: seq<Entry>, e: Entry, ci: Option<nat>, c: U16, best: nat)
    requires Searched(q, es, ci, c, true, best) && Candidate(q, e) && !Aligned(q, e)
    ensures Searched(q, es + [e], ci, c, true, best)
  {
    var es' := es + [e];
    assert forall j :: 0 <= j < |es| ==> es'[j] == es[j];
    var k :| 0 <= k < |es| && AlignedCandidate(q, es[k]);
    assert Candidate(q, es'[k]) && AlignedCandidate(q, es'[k]);
  }

  lemma SearchedOffKeep(q: Query, es: seq<Entry>, e: Entry, ci: Option<nat>, c: U16, best: nat)
    requires Searched(q, es, ci, c, false, best) && Candidate(q, e) && !Aligned(q, e)
    requires Dist(q, e) <= U16_MAX && e.index < USIZE_MAX
    requires !(Dist(q, e) < c || (Dist(q, e) == c && e.index < UnwrapOr(ci, USIZE_MAX)))
    ensures Searched(q, es + [e], ci, c, false, best)
  {
    var es' := es + [e];
    assert forall j :: 0 <= j < |es| ==> es'[j] == es[j];
    assert es'[|es|] == e;
    StillUnaligned(q, es, e);
    assert ci.None? ==> c == U16_MAX;
    var b := es[best];
    var db, de := Dist(q, b), Dist(q, e);
    assert de > db || (de == db && e.index >= b.index);
    forall j | 0 <= j < |es'| && Candidate(q, es'[j])
      ensures db < Dist(q, es'[j]) || (db == Dist(q, es'[j]) && b.index <= es'[j].index)
    {
      if j < |es| {
        assert es'[j] == es[j];
      }
    }
    assert es'[best] == b;
  }

  /** `find_closest_in_direction`: one pass that prefers the first aligned
      entry at the smallest axial distance, and otherwise the nearest entry by
      squared distance with ties to the smaller index. */
  method FindClosestInDirection(q: Query, es: seq<Entry>) returns (r: Option<nat>)
    requires Fits(q, es) && Indexable(es)
    ensures r.None? <==> !HasCandidate(q, es)
    ensures r.Some? ==> r.value != q.cursor && Chosen(q, es, r.value)
  {
    var closestIndex: Option<nat> := None;
    var closest: U16 := U16_MAX;
    var found := false;
    ghost var best: nat := 0;
    SearchedEmpty(q);
    var n := 0;
    while n < |es|
      invariant 0 <= n <= |es|
      invariant Searched(q, es[..n], closestIndex, closest, found, best)
    {
      var e := es[n];
      SearchStep(q, es, n, closestIndex, closest, found, best);
      if e.index == q.cursor || !OnSide(q, e) {
      } else if Aligned(q, e) {
        var d := Axial(q, e);
        if !found || d < closest {
          closestIndex, closest, found, best := Some(e.index), d, true, n;
        }
      } else if !found {
        var dist := Dist(q, e);
        if dist < closest || (dist == closest && e.index < UnwrapOr(closestIndex, USIZE_MAX)) {
          closestIndex, closest, best := Some(e.index), dist, n;
        }
      }
      n := n + 1;
    }
    assert es[..n] == es;
    r := closestIndex;
  }

  /** One entry of the search: which of the steps above applies to `es[n]`. */
  lemma SearchStep(q: Query, es: seq<Entry>, n: nat, ci: Option<nat>, c: U16, found: bool, best: nat)
    requires Fits(q, es) && Indexable(es) && n < |es|
    requires Searched(q, es[..n], ci, c, found, best)
    ensures es[n].index < USIZE_MAX
    ensures !Candidate(q, es[n]) ==> Searched(q, es[..n + 1], ci, c, found, best)
    ensures AlignedCandidate(q, es[n]) && (!found || Axial(q, es[n]) < c) ==>
      Searched(q, es[..n + 1], Some(es[n].index), Axial(q, es[n]), true, n)
    ensures AlignedCandidate(q, es[n]) && found && Axial(q, es[n]) >= c ==>
      Searched(q, es[..n + 1], ci, c, found, best)
    ensures Candidate(q, es[n]) && !Aligned(q, es[n]) && found ==>
      Searched(q, es[..n + 1], ci, c, found, best)
    ensures Candidate(q, es[n]) && !Aligned(q, es[n]) && !found ==>
      Dist(q, es[n]) <= U16_MAX &&
      if Dist(q, es[n]) < c || (Dist(q, es[n]) == c && es[n].index < UnwrapOr(ci, USIZE_MAX))
      then Searched(q, es[..n + 1], Some(es[n].index), Dist(q, es[n]), false, n)
      else Searched(q, es[..n + 1], ci, c, found, best)
  {
    var p, e := es[..n], es[n];
    assert es[..n + 1] == p + [e];
    if !Candidate(q, e) {
      SearchedSkip(q, p, e, ci, c, found, best);
    } else if Aligned(q, e) {
      if !found || Axial(q, e) < c {
        SearchedAlignedTake(q, p, e, ci, c, found, best);
      } else {
        SearchedAlignedKeep(q, p, e, ci, c, found, best);
      }
    } else if found {
      SearchedOffAfterAligned(q, p, e, ci, c, best);
    } else {
      assert !HasAligned(q, p);
      if Dist(q, e) < c || (Dist(q, e) == c && e.index < UnwrapOr(ci, USIZE_MAX)) {
        SearchedOffTake(q, p, e, ci, c, found, best);
      } else {
        SearchedOffKeep(q, p, e, ci, c, best);
      }
    }
  }

  /** The chosen index belongs to an entry strictly on the requested side. */
  lemma ChosenIsCandidate(q: Query, es: seq<Entry>, v: nat)
    requires Chosen(q, es, v)
    ensures exists k :: 0 <= k < |es| && Candidate(q, es[k]) && es[k].index == v
  {
    if HasAligned(q, es) {
      var k: nat :| k < |es| && AlignedBest(q, es, k) && es[k].index == v;
      assert Candidate(q, es[k]);
    } else {
      var k: nat :| k < |es| && Nearest(q, es, k) && es[k].index == v;
      assert Candidate(q, es[k]);
    }
  }

  /** The position of the focused widget: the first entry recorded for the
      cursor, or (0, 0) when the cursor's widget was not drawn. */
  function CurrentPosition(es: seq<Entry>, cursor: nat): (r: (U16, U16))
    ensures (forall k :: 0 <= k < |es| ==> es[k].index != cursor) ==> r == (0, 0)
    ensures forall k :: 0 <= k < |es| && es[k].index == cursor && (forall j :: 0 <= j < k ==> es[j].index != cursor) ==>
      r == (es[k].x, es[k].y)
  {
    if es == [] then (0, 0)
    else if es[0].index == cursor then (es[0].x, es[0].y)
    else
      var r := CurrentPosition(es[1..], cursor);
      assert forall k :: 1 <= k < |es| ==> es[1..][k - 1] == es[k];
      r
  }

  datatype Key = Arrow(dir: Direction) | OtherKey

  /** The events the extension sees: key presses (with whether Shift is held)
      and everything else. */
  datatype Event = KeyPress(key: Key, shift: bool) | OtherEvent

  predicate Navigates(ev: Event) { ev.KeyPress? && ev.shift && ev.key.Arrow? }

  /** `RelativeFocusExtension`. Each widget's focus flag is a cell of the
      `focused` array, indexed by the widget's position in the widget list. */
  class RelativeFocusExtension {
    var cursor: nat
    var rendered: seq<Entry>

    /** `new`. */
    constructor ()
      ensures cursor == 0 && rendered == []
    {
      cursor := 0;
      rendered := [];
    }

    /** The search a navigation key starts from the current state. */
    function QueryFor(dir: Direction): (q: Query)
      reads this
      ensures q.dir == dir && q.cursor == cursor
      ensures (q.cx, q.cy) == CurrentPosition(rendered, cursor)
    {
      var (x, y) := CurrentPosition(rendered, cursor);
      Query(dir, x, y, cursor)
    }

    /** `init`: every widget carrying `Focused` gets focus; the rest keep theirs. */
    method Init(focused: array<bool>, hasFocused: seq<bool>)
      requires |hasFocused| == focused.Length
      modifies focused
      ensures forall i :: 0 <= i < focused.Length ==> focused[i] == (hasFocused[i] || old(focused[i]))
    {
      var i := 0;
      while i < focused.Length
        invariant 0 <= i <= focused.Length
        invariant forall k :: 0 <= k < i ==> focused[k] == (hasFocused[k] || old(focused[k]))
        invariant forall k :: i <= k < focused.Length ==> focused[k] == old(focused[k])
      {
        if hasFocused[i] {
          focused[i] := true;
        }
        i := i + 1;
      }
    }

    /** `event`: Shift+arrow moves the cursor to the chosen entry and focuses
        exactly that widget (on Down, `AlwaysFocused` widgets stay focused);
        when nothing lies in that direction nothing changes. */
    method Event(ev: Event, focused: array<bool>, alwaysFocused: seq<bool>)
      requires |alwaysFocused| == focused.Length
      requires Navigates(ev) ==> Fits(QueryFor(ev.key.dir), rendered) && Indexable(rendered)
      modifies this, focused
      ensures rendered == old(rendered)
      ensures !Navigates(ev) ==> cursor == old(cursor) && focused[..] == old(focused[..])
      ensures Navigates(ev) && !HasCandidate(old(QueryFor(ev.key.dir)), rendered) ==>
        cursor == old(cursor) && focused[..] == old(focused[..])
      ensures Navigates(ev) && HasCandidate(old(QueryFor(ev.key.dir)), rendered) ==>
        cursor != old(cursor) && Chosen(old(QueryFor(ev.key.dir)), rendered, cursor) &&
        forall i :: 0 <= i < focused.Length ==>
          focused[i] == (i == cursor || (ev.key.dir == Down && alwaysFocused[i]))
    {
      if Navigates(ev) {
        var dir := ev.key.dir;
        var (x, y) := CurrentPosition(rendered, cursor);
        var found := FindClosestInDirection(Query(dir, x, y, cursor), rendered);
        if found.Some? {
          cursor := found.value;
          var i := 0;
          while i < focused.Length
            invariant 0 <= i <= focused.Length
            invariant rendered == old(rendered) && cursor == found.value
            invariant forall k :: 0 <= k < i ==> focused[k] == (k == cursor || (dir == Down && alwaysFocused[k]))
          {
            if dir == Down && alwaysFocused[i] {
              focused[i] := true;
            } else {
              focused[i] := i == cursor;
            }
            i := i + 1;
          }
        }
      }
    }

    /** `render`: the entries of the previous frame are dropped. */
    method Render()
      modifies this
      ensures rendered == [] && cursor == old(cursor)
    {
      rendered := [];
    }

    /** What `after_render_widget` records for a drawn widget (its thread is
        not modelled): its position in the widget list and its corner. */
    method Record(index: nat, x: U16, y: U16)
      modifies this
      ensures rendered == old(rendered) + [Entry(index, x, y)] && cursor == old(cursor)
    {
      rendered := rendered + [Entry(index, x, y)];
    }
  }
}
