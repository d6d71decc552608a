/** The activation side of multitargetManager: one active flag per configured
    animal, cleared on every tracking-status event and set again for at most
    the animal of the visible face. */
module Activation {
  import opened Wrappers
  import opened FaceSelection

  /** The tracking statuses the AR SDK reports for a target. */
  datatype Status = NoPose | Limited | Detected | Tracked | ExtendedTracked

  /** The statuses for which the handler looks for a visible face. */
  predicate ShowsTarget(s: Status) {
    s == Tracked || s == ExtendedTracked || s == Limited
  }

  /** The number of active animals. */
  function ActiveCount(active: seq<bool>): nat {
    if |active| == 0 then 0
    else (if active[0] then 1 else 0) + ActiveCount(active[1..])
  }

  predicate AtMostOneActive(active: seq<bool>) {
    ActiveCount(active) <= 1
  }

  /** DeactivateAnimals: every animal is switched off and none is added or removed. */
  function DeactivateAnimals(active: seq<bool>): (r: seq<bool>)
    ensures |r| == |active|
    ensures forall i :: 0 <= i < |r| ==> !r[i]
  {
    if |active| == 0 then []
    else [false] + DeactivateAnimals(active[1..])
  }

  /** Start: the animals are switched off before any event arrives. */
  function Start(active: seq<bool>): (r: seq<bool>)
    ensures |r| == |active|
    ensures ActiveCount(r) == 0
  {
    var r := DeactivateAnimals(active);
    NoneActiveCountsZero(r);
    r
  }

  /** The handler's effect: the new flags and the animal whose animation it started. */
  datatype Reaction = Reaction(active: seq<bool>, animated: Option<nat>)

  /** OnTargetStatusChanged: clear every flag; for a status that shows the
      target, set the flag of the visible face when that index is a
      configured animal, and start that animal's animation. */
  function OnTargetStatusChanged(active: seq<bool>, status: Status, view: View): (r: Reaction)
    ensures |r.active| == |active|
    ensures AtMostOneActive(r.active)
    ensures forall i :: 0 <= i < |r.active| ==>
      (r.active[i] <==> ShowsTarget(status) && i == GetVisibleFaceIndex(view))
    ensures r.animated.Some? <==> ActiveCount(r.active) == 1
    ensures r.animated.Some? ==>
      r.animated.value < |r.active| && r.active[r.animated.value]
  {
    var cleared := DeactivateAnimals(active);
    NoneActiveCountsZero(cleared);
    if ShowsTarget(status) then
      var face := GetVisibleFaceIndex(view);
      if face >= 0 && face < |cleared| then
        SingleActiveCountsOne(cleared, face);
        Reaction(cleared[face := true], Some(face))
      else
        Reaction(cleared, None)
    else
      Reaction(cleared, None)
  }

  lemma {:induction false} NoneActiveCountsZero(active: seq<bool>)
    requires forall i :: 0 <= i < |active| ==> !active[i]
    ensures ActiveCount(active) == 0
  {
    if |active| > 0 {
      NoneActiveCountsZero(active[1..]);
    }
  }

  lemma {:induction false} SingleActiveCountsOne(active: seq<bool>, k: nat)
    requires k < |active|
    requires forall i :: 0 <= i < |active| ==> !active[i]
    ensures ActiveCount(active[k := true]) == 1
  {
    var set1 := active[k := true];
    if k == 0 {
      assert set1[1..] == active[1..];
      NoneActiveCountsZero(active[1..]);
    } else {
      assert set1[1..] == active[1..][k - 1 := true];
      SingleActiveCountsOne(active[1..], k - 1);
    }
  }

  /** A status that does not show the target leaves every animal inactive,
      whatever was active before. */
  lemma HiddenTargetShowsNothing(active: seq<bool>, status: Status, view: View)
    requires !ShowsTarget(status)
    ensures ActiveCount(OnTargetStatusChanged(active, status, view).active) == 0
    ensures OnTargetStatusChanged(active, status, view).animated == None
  {
  }

  /** A visible face that names a configured animal leaves exactly that animal active. */
  lemma VisibleFaceActivatesItsAnimal(active: seq<bool>, status: Status, view: View)
    requires ShowsTarget(status)
    requires GetVisibleFaceIndex(view) < |active|
    ensures ActiveCount(OnTargetStatusChanged(active, status, view).active) == 1
    ensures OnTargetStatusChanged(active, status, view).active[GetVisibleFaceIndex(view)]
    ensures OnTargetStatusChanged(active, status, view).animated == Some(GetVisibleFaceIndex(view))
  {
  }

  /** With fewer animals than the visible face's index, the bounds check
      skips activation: nothing is shown and no animation starts. */
  lemma OutOfRangeFaceShowsNothing(active: seq<bool>, status: Status, view: View)
    requires |active| <= GetVisibleFaceIndex(view)
    ensures ActiveCount(OnTargetStatusChanged(active, status, view).active) == 0
    ensures OnTargetStatusChanged(active, status, view).animated == None
  {
  }

  /** The reaction depends only on the number of animals, not on which were active. */
  lemma ReactionForgetsHistory(a1: seq<bool>, a2: seq<bool>, status: Status, view: View)
    requires |a1| == |a2|
    ensures OnTargetStatusChanged(a1, status, view) == OnTargetStatusChanged(a2, status, view)
  {
    var r1 := OnTargetStatusChanged(a1, status, view).active;
    var r2 := OnTargetStatusChanged(a2, status, view).active;
    assert forall i :: 0 <= i < |r1| ==> r1[i] == r2[i];
  }

  /** One tracking-status notification and the scene it is handled in. */
  datatype Event = Event(status: Status, view: View)

  /** The flags after handling a sequence of events in order. */
  function Handle(active: seq<bool>, events: seq<Event>): seq<bool>
    decreases |events|
  {
    if |events| == 0 then active
    else
      var e := events[0];
      Handle(OnTargetStatusChanged(active, e.status, e.view).active, events[1..])
  }

  /** From Start on, every reachable state has the configured number of
      animals and at most one of them active. */
  lemma {:induction false} AtMostOneActiveAlways(animals: seq<bool>, events: seq<Event>)
    ensures |Handle(Start(animals), events)| == |animals|
    ensures AtMostOneActive(Handle(Start(animals), events))
  {
    HandlePreserves(Start(animals), events);
  }

  lemma {:induction false} HandlePreserves(active: seq<bool>, events: seq<Event>)
    requires AtMostOneActive(active)
    ensures |Handle(active, events)| == |active|
    ensures AtMostOneActive(Handle(active, events))
    decreases |events|
  {
    if |events| > 0 {
      var e := events[0];
      HandlePreserves(OnTargetStatusChanged(active, e.status, e.view).active, events[1..]);
    }
  }

  /** Only the most recent event decides what is shown. */
  lemma {:induction false} LastEventDecides(active: seq<bool>, events: seq<Event>, last: Event)
    ensures Handle(active, events + [last])
         == OnTargetStatusChanged(active, last.status, last.view).active
    decreases |events|
  {
    if |events| == 0 {
      assert events + [last] == [last];
    } else {
      var e := events[0];
      var next := OnTargetStatusChanged(active, e.status, e.view).active;
      assert (events + [last])[1..] == events[1..] + [last];
      LastEventDecides(next, events[1..], last);
      ReactionForgetsHistory(next, active, last.status, last.view);
    }
  }
}
