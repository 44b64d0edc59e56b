/**
 Picking the present entries out of a sequence of optional values, and the
 positions they were picked from.
 */
module Picking {
  import opened Wrappers

  /** Each index shifted up by one. */
  function Shift(idx: seq<nat>): (r: seq<nat>)
    ensures |r| == |idx|
    ensures forall k :: 0 <= k < |r| ==> r[k] == idx[k] + 1
    decreases |idx|
  {
    if |idx| == 0 then [] else [idx[0] + 1] + Shift(idx[1..])
  }

  /** The values held by the `Some` entries of `outs`, in order. */
  function Somes<T>(outs: seq<Option<T>>): seq<T>
    decreases |outs|
  {
    if |outs| == 0 then []
    else (if outs[0].Some? then [outs[0].value] else []) + Somes(outs[1..])
  }

  /**
   `idx` tells, for each element of `picked`, the entry of `outs` it came
   from: one entry per element, in order, covering every `Some` entry.
   */
  ghost predicate IsOriginMap<T>(outs: seq<Option<T>>, picked: seq<T>, idx: seq<nat>)
  {
    && |idx| == |picked|
    && (forall k :: 0 <= k < |idx| ==> idx[k] < |outs| && outs[idx[k]] == Some(picked[k]))
    && Increasing(idx)
    && (forall i :: 0 <= i < |outs| && outs[i].Some? ==> i in idx)
  }

  /** The positions of the `Some` entries of `outs`, in order. */
  function Origins<T>(outs: seq<Option<T>>): seq<nat>
    decreases |outs|
  {
    if |outs| == 0 then []
    else (if outs[0].Some? then [0] else []) + Shift(Origins(outs[1..]))
  }

  /** Each element `Somes` keeps is held by the entry its origin points at. */
  lemma {:induction false} OriginsPointAtSomes<T>(outs: seq<Option<T>>)
    ensures |Origins(outs)| == |Somes(outs)|
    ensures forall k :: 0 <= k < |Origins(outs)| ==>
              Origins(outs)[k] < |outs| && outs[Origins(outs)[k]] == Some(Somes(outs)[k])
    decreases |outs|
  {
    if |outs| > 0 {
      var rest := outs[1..];
      OriginsPointAtSomes(rest);
      var o := Origins(outs);
      var p := Somes(outs);
      var lead := if outs[0].Some? then 1 else 0;
      assert o == (if outs[0].Some? then [0] else []) + Shift(Origins(rest));
      assert p == (if outs[0].Some? then [outs[0].value] else []) + Somes(rest);
      forall k | lead <= k < |o|
        ensures o[k] < |outs| && outs[o[k]] == Some(p[k])
      {
        assert o[k] == Origins(rest)[k - lead] + 1;
        assert p[k] == Somes(rest)[k - lead];
        assert outs[o[k]] == rest[o[k] - 1];
      }
    }
  }

  /** Every position comes strictly after the one before it. */
  ghost predicate Increasing(idx: seq<nat>)
  {
    forall k, l :: 0 <= k < l < |idx| ==> idx[k] < idx[l]
  }

  /** Shifting keeps positions increasing. */
  lemma ShiftIncreasing(idx: seq<nat>)
    requires Increasing(idx)
    ensures Increasing(Shift(idx))
  {
  }

  /** Putting `0` in front of positive increasing positions keeps them increasing. */
  lemma LeadIncreasing(idx: seq<nat>)
    requires Increasing(idx)
    requires forall k :: 0 <= k < |idx| ==> idx[k] >= 1
    ensures Increasing([0] + idx)
  {
    var all := [0] + idx;
    forall k, l | 0 <= k < l < |all|
      ensures all[k] < all[l]
    {
      assert all[l] == idx[l - 1];
      if k > 0 {
        assert all[k] == idx[k - 1];
      }
    }
  }

  /** Origins are strictly increasing: the kept elements stay in list order. */
  lemma {:induction false} OriginsIncrease<T>(outs: seq<Option<T>>)
    ensures Increasing(Origins(outs))
    decreases |outs|
  {
    if |outs| > 0 {
      var rest := outs[1..];
      OriginsIncrease(rest);
      var tail := Shift(Origins(rest));
      ShiftIncreasing(Origins(rest));
      if outs[0].Some? {
        LeadIncreasing(tail);
      }
    }
  }

  /** Every `Some` entry has its position among the origins. */
  lemma {:induction false} OriginsCoverSomes<T>(outs: seq<Option<T>>)
    ensures forall i :: 0 <= i < |outs| && outs[i].Some? ==> i in Origins(outs)
    decreases |outs|
  {
    if |outs| > 0 {
      var rest := outs[1..];
      OriginsCoverSomes(rest);
      var tail := Shift(Origins(rest));
      var o := Origins(outs);
      var lead := if outs[0].Some? then 1 else 0;
      assert o == (if outs[0].Some? then [0] else []) + tail;
      forall i | 1 <= i < |outs| && outs[i].Some?
        ensures i in o
      {
        assert rest[i - 1] == outs[i];
        var k :| 0 <= k < |Origins(rest)| && Origins(rest)[k] == i - 1;
        assert o[k + lead] == tail[k] == i;
      }
    }
  }

  /** `Somes` keeps every `Some` entry once, in order, and nothing else. */
  lemma SomesInOrder<T>(outs: seq<Option<T>>)
    ensures IsOriginMap(outs, Somes(outs), Origins(outs))
  {
    OriginsPointAtSomes(outs);
    OriginsIncrease(outs);
    OriginsCoverSomes(outs);
  }
}
