/** The camera cycling rule of switch_camera: the next entry of the list of
    camera indices after the current one, wrapping around, or the first entry
    when the current index is not in the list. */
module CameraCycle {
  import opened Wrappers
  import Config

  /** The position of the first occurrence of x in s at or after position
      `from`; None when there is none. */
  function IndexFrom(s: seq<int>, x: int, from: nat): (r: Option<nat>)
    requires from <= |s|
    ensures r.Some? ==> from <= r.value < |s|
    decreases |s| - from
  {
    if from == |s| then None
    else if s[from] == x then Some(from)
    else IndexFrom(s, x, from + 1)
  }

  /** list.index(x): None where list.index raises ValueError. */
  function IndexOf(s: seq<int>, x: int): Option<nat>
  {
    IndexFrom(s, x, 0)
  }

  /** x does not occur in s before position p. */
  predicate NotBefore(s: seq<int>, x: int, p: nat)
    requires p <= |s|
  {
    forall j :: 0 <= j < p ==> s[j] != x
  }

  /** The search from `from` finds x exactly when x occurs at or after
      `from`, and then at its first occurrence there. */
  lemma {:induction false} IndexFromFirst(s: seq<int>, x: int, from: nat)
    requires from <= |s|
    ensures IndexFrom(s, x, from).None? <==> forall j :: from <= j < |s| ==> s[j] != x
    ensures IndexFrom(s, x, from).Some? ==>
              && s[IndexFrom(s, x, from).value] == x
              && forall j :: from <= j < IndexFrom(s, x, from).value ==> s[j] != x
    decreases |s| - from
  {
    if from < |s| && s[from] != x {
      IndexFromFirst(s, x, from + 1);
    }
  }

  /** list.index finds x exactly when x is in s, and then at its first occurrence. */
  lemma IndexOfFirst(s: seq<int>, x: int)
    ensures IndexOf(s, x).None? <==> x !in s
    ensures IndexOf(s, x).Some? ==>
              IndexOf(s, x).value < |s| && s[IndexOf(s, x).value] == x && NotBefore(s, x, IndexOf(s, x).value)
  {
    IndexFromFirst(s, x, 0);
  }

  /** The cyclic successor (i + 1) % n of a position i of a list of length n. */
  function Succ(i: nat, n: nat): (r: nat)
    requires i < n
    ensures r < n
    ensures r == if i + 1 < n then i + 1 else 0
  {
    (i + 1) % n
  }

  /** The camera index switch_camera selects when the current one is `current`. */
  function NextCamera(ids: seq<int>, current: int): (r: int)
    requires |ids| > 0
    ensures r in ids
  {
    var next := match IndexOf(ids, current)
      case Some(i) => Succ(i, |ids|)
      case None => 0;
    ids[next]
  }

  /** No index occurs twice in the list. */
  predicate Distinct(ids: seq<int>)
  {
    forall i, j :: 0 <= i < j < |ids| ==> ids[i] != ids[j]
  }

  /** An index whose first occurrence is at position i is followed by the
      entry at position i + 1, and the last entry by the first. */
  lemma NextCameraAfter(ids: seq<int>, i: nat)
    requires i < |ids|
    requires NotBefore(ids, ids[i], i)
    ensures NextCamera(ids, ids[i]) == if i + 1 < |ids| then ids[i + 1] else ids[0]
  {
    IndexFromFirst(ids, ids[i], 0);
  }

  /** An index that is not in the list is replaced by the first entry. */
  lemma NextCameraOutside(ids: seq<int>, current: int)
    requires |ids| > 0
    requires current !in ids
    ensures NextCamera(ids, current) == ids[0]
  {
    IndexOfFirst(ids, current);
  }

  /** With distinct entries, one switch from position i reaches position
      i + 1, or the first entry from the last one. */
  lemma DistinctNext(ids: seq<int>, i: nat)
    requires Distinct(ids)
    requires i < |ids|
    ensures NextCamera(ids, ids[i]) == if i + 1 < |ids| then ids[i + 1] else ids[0]
  {
    NextCameraAfter(ids, i);
  }

  /** The index after k switches starting from `current`. */
  function Switched(ids: seq<int>, current: int, k: nat): int
    requires |ids| > 0
    decreases k
  {
    if k == 0 then current else Switched(ids, NextCamera(ids, current), k - 1)
  }

  /** Switching a + b times is switching a times, then b times. */
  lemma {:induction false} SwitchedTwice(ids: seq<int>, current: int, a: nat, b: nat)
    requires |ids| > 0
    ensures Switched(ids, current, a + b) == Switched(ids, Switched(ids, current, a), b)
    decreases a
  {
    if a > 0 {
      SwitchedTwice(ids, NextCamera(ids, current), a - 1, b);
      assert a + b - 1 == (a - 1) + b;
    }
  }

  /** With distinct entries, k switches from position i reach position i + k,
      as long as the end of the list is not passed. */
  lemma {:induction false} SwitchedFrom(ids: seq<int>, i: nat, k: nat)
    requires Distinct(ids)
    requires i + k < |ids|
    ensures Switched(ids, ids[i], k) == ids[i + k]
    decreases k
  {
    if k > 0 {
      assert NextCamera(ids, ids[i]) == ids[i + 1] by { DistinctNext(ids, i); }
      SwitchedFrom(ids, i + 1, k - 1);
    }
  }

  /** With distinct entries, the switches from position i over the end of the
      list reach its first entry. */
  lemma SwitchedToFirst(ids: seq<int>, i: nat)
    requires Distinct(ids)
    requires i < |ids|
    ensures Switched(ids, ids[i], |ids| - i) == ids[0]
  {
    var last := |ids| - 1;
    var toLast := last - i;
    var atLast := Switched(ids, ids[i], toLast);
    assert atLast == ids[last] by { SwitchedFrom(ids, i, toLast); }
    assert NextCamera(ids, ids[last]) == ids[0] by { DistinctNext(ids, last); }
    assert Switched(ids, atLast, 1) == ids[0];
    assert Switched(ids, ids[i], toLast + 1) == Switched(ids, atLast, 1) by {
      SwitchedTwice(ids, ids[i], toLast, 1);
    }
  }

  /** With distinct entries, switching as many times as there are cameras
      visits each of them in turn and returns to the start. */
  lemma FullCycle(ids: seq<int>, i: nat)
    requires Distinct(ids)
    requires i < |ids|
    ensures Switched(ids, ids[i], |ids|) == ids[i]
  {
    var toFirst := |ids| - i;
    var atFirst := Switched(ids, ids[i], toFirst);
    assert atFirst == ids[0] by { SwitchedToFirst(ids, i); }
    assert Switched(ids, atFirst, i) == ids[i] by { SwitchedFrom(ids, 0, i); }
    assert Switched(ids, ids[i], toFirst + i) == Switched(ids, atFirst, i) by {
      SwitchedTwice(ids, ids[i], toFirst, i);
    }
  }

  /** The configured cameras cycle 0, 1, 2, 0, and any other index moves to 0. */
  lemma ConfiguredCycle(current: int)
    ensures Distinct(Config.CameraIds)
    ensures NextCamera(Config.CameraIds, current) ==
              if current == 0 then 1 else if current == 1 then 2 else 0
  {
    var ids := Config.CameraIds;
    if current in ids {
      var i := if current == 0 then 0 else if current == 1 then 1 else 2;
      assert ids[i] == current;
      NextCameraAfter(ids, i);
    } else {
      NextCameraOutside(ids, current);
    }
  }
}
