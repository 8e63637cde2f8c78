/** The id lookup of `src/extensions/id.rs`: the screen's widgets are scanned in
    order for the first one whose `Id` component holds the requested id. A widget
    is seen here through its `Id` component: `ids[k]` is what `get::<Id>()`
    returns for the `k`-th widget (`None` for a widget without one). */
module IdExtension {
  import opened Common

  /** `get_element`: the position of the first widget carrying `Id(id)`, if any.
      The scan reads the widgets and changes none of them. */
  function GetElement(ids: seq<Option<nat>>, id: nat): (r: Option<nat>)
    ensures r.Some? ==> r.value < |ids| && ids[r.value] == Some(id)
    ensures r.Some? ==> forall j :: 0 <= j < r.value ==> ids[j] != Some(id)
    ensures r.None? <==> forall j :: 0 <= j < |ids| ==> ids[j] != Some(id)
  {
    if ids == [] then Option.None
    else if ids[0] == Some(id) then Some(0)
    else match GetElement(ids[1..], id)
      case Some(k) => Some(k + 1)
      case None => Option.None
  }

  /** The scan of `get_element` as the `for` loop does it: widgets are visited in
      order and the first one carrying `Id(id)` is returned at once. */
  method Scan(ids: seq<Option<nat>>, id: nat) returns (r: Option<nat>)
    ensures r == GetElement(ids, id)
  {
    var k := 0;
    while k < |ids|
      invariant 0 <= k <= |ids|
      invariant forall j :: 0 <= j < k ==> ids[j] != Some(id)
    {
      if ids[k] == Some(id) {
        return Some(k);
      }
      k := k + 1;
    }
    return Option.None;
  }

  /** Widgets without an `Id` component never change the outcome: dropping one in
      front of the list only shifts the position found. */
  lemma {:induction false} SkipsWidgetsWithoutId(ids: seq<Option<nat>>, id: nat)
    ensures GetElement([Option.None] + ids, id) ==
      (match GetElement(ids, id) case Some(k) => Some(k + 1) case None => Option.None)
  {
    assert ([Option.None] + ids)[1..] == ids;
  }

  /** The first match wins: the widgets after it are never looked at. */
  lemma FirstMatchWins(front: seq<Option<nat>>, id: nat, back: seq<Option<nat>>)
    requires forall j :: 0 <= j < |front| ==> front[j] != Some(id)
    ensures GetElement(front + [Some(id)] + back, id) == Some(|front|)
  {
    var ids := front + [Some(id)] + back;
    assert ids[|front|] == Some(id);
    assert forall j :: 0 <= j < |front| ==> ids[j] == front[j];
  }
}
