/**
 The scan stack of the collector: reference lists kept in a chain of frames of
 64 lists each. Frames emptied by popping stay linked and are used again.
 */
module ScanStack {
  import opened GcShape
  import opened GcGraph

  const LISTS_PER_FRAME := 64

  /** `posn` is the index of the top list in this frame, or -1. */
  datatype Frame = Frame(posn: int, lists: seq<seq<Ptr>>)

  ghost predicate FrameOk(f: Frame) {
    -1 <= f.posn < LISTS_PER_FRAME && |f.lists| == LISTS_PER_FRAME
  }

  /** All the lists held by a chain of frames, bottom first. */
  ghost function Flat(fs: seq<Frame>): seq<seq<Ptr>>
    requires forall i :: 0 <= i < |fs| ==> FrameOk(fs[i])
  {
    if fs == [] then [] else
    var n := |fs| - 1;
    assert FrameOk(fs[n]);
    Flat(fs[..n]) + fs[n].lists[..fs[n].posn + 1]
  }

  ghost function Entries(lists: seq<seq<Ptr>>): set<Ref> {
    set l, r | l in lists && r in PtrRefs(l) :: r
  }

  /** The number of pointers still to be looked at. */
  ghost function Pending(lists: seq<seq<Ptr>>): nat {
    if lists == [] then 0 else Pending(lists[..|lists| - 1]) + |lists[|lists| - 1]|
  }

  class Stack {
    var frames: seq<Frame>
    var cur: nat

    ghost predicate Valid()
      reads this
    {
      && cur < |frames|
      && (forall i :: 0 <= i < |frames| ==> FrameOk(frames[i]))
      && (forall i :: 0 <= i < cur ==> frames[i].posn == LISTS_PER_FRAME - 1)
      && (forall i :: cur < i < |frames| ==> frames[i].posn == -1)
    }

    /** The frames as one stack of lists; the last is on top. */
    ghost function Contents(): seq<seq<Ptr>>
      reads this
      requires Valid()
    {
      Flat(frames[..cur + 1])
    }

    ghost predicate Loaded()
      reads this
      requires Valid()
    {
      frames[cur].posn >= 0
    }

    /** The list on top of the stack. */
    function Top(): (top: seq<Ptr>)
      reads this
      requires Valid() && Loaded()
      ensures var all := Contents(); |all| > 0 && top == all[|all| - 1]
    {
      assert frames[..cur + 1][..cur] == frames[..cur];
      frames[cur].lists[frames[cur].posn]
    }

    /** The bottom frame holding the given one or two root lists. */
    constructor (first: seq<Ptr>, second: seq<seq<Ptr>>)
      requires |second| <= 1
      ensures Valid() && Loaded() && Contents() == [first] + second
    {
      frames := [Frame(|second|, [first] + second + seq(LISTS_PER_FRAME - 1 - |second|, _ => []))];
      cur := 0;
      new;
      assert frames[..1] == frames;
      assert Flat(frames) == [] + frames[0].lists[..|second| + 1] by {
        assert frames[..0] == [];
      }
    }

    /** Go on to the next frame, a new one if there is none. */
    method NextFrame()
      requires Valid() && frames[cur].posn == LISTS_PER_FRAME - 1
      modifies this
      ensures Valid() && frames[cur].posn == -1 && Contents() == old(Contents())
    {
      ghost var before := frames[..cur + 1];
      if cur + 1 == |frames| {
        frames := frames + [Frame(-1, seq(LISTS_PER_FRAME, _ => []))];
      }
      cur := cur + 1;
      assert frames[..cur] == before;
      assert frames[..cur + 1][..cur] == frames[..cur];
    }

    method Push(refs: seq<Ptr>)
      requires Valid()
      modifies this
      ensures Valid() && Loaded() && Contents() == old(Contents()) + [refs]
    {
      if frames[cur].posn == LISTS_PER_FRAME - 1 { NextFrame(); }
      ghost var mid := frames;
      assert mid[..cur + 1][..cur] == mid[..cur];
      var f := frames[cur];
      frames := frames[cur := Frame(f.posn + 1, f.lists[f.posn + 1 := refs])];
      assert frames[..cur + 1][..cur] == mid[..cur];
      assert frames[cur].lists[..f.posn + 2] == f.lists[..f.posn + 1] + [refs];
    }

    /** Take the next pointer from the top list. */
    method Take() returns (p: Ptr)
      requires Valid() && Loaded() && Top() != []
      modifies this
      ensures Valid() && Loaded()
      ensures var was := old(Contents()); var n := |was| - 1;
              n >= 0 && was[n] != [] && p == was[n][0] && Contents() == was[..n] + [was[n][1..]]
    {
      ghost var before := frames;
      var f := frames[cur];
      var top := f.lists[f.posn];
      p := top[0];
      frames := frames[cur := f.(lists := f.lists[f.posn := top[1..]])];
      assert frames[..cur + 1][..cur] == before[..cur + 1][..cur];
      assert frames[cur].lists[..f.posn + 1] == f.lists[..f.posn] + [top[1..]];
      assert f.lists[..f.posn + 1] == f.lists[..f.posn] + [top];
    }

    /** Drop the exhausted top list; `done` when nothing is left below it. */
    method Pop() returns (done: bool)
      requires Valid() && Loaded() && Top() == []
      modifies this
      ensures Valid()
      ensures var was := old(Contents()); var n := |was| - 1;
              n >= 0 && was[n] == [] && Contents() == was[..n]
      ensures done <==> Contents() == []
      ensures done || Loaded()
    {
      ghost var before := frames;
      var f := frames[cur];
      frames := frames[cur := f.(posn := f.posn - 1)];
      assert frames[..cur + 1][..cur] == before[..cur + 1][..cur] == before[..cur];
      assert f.lists[..f.posn + 1] == f.lists[..f.posn] + [[]];
      done := false;
      assert Flat(frames[..cur + 1]) == Flat(before[..cur]) + f.lists[..f.posn];
      if f.posn == 0 {
        if cur == 0 {
          done := true;
          assert frames[..1][..0] == [];
        } else {
          cur := cur - 1;
          assert frames[..cur + 2][..cur + 1] == frames[..cur + 1];
        }
      }
    }
  }
}
