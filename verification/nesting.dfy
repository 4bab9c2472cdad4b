/** Save/restore discipline of a canvas program, judged from the operations
    alone: no prefix restores more than it (and the stack it starts on) has
    saved. Such a program never makes the host canvas fail, whatever shapes
    and rotations it holds, and a balanced one leaves the save stack as deep
    as it found it. Every program `WatchBoard` issues is balanced. */
module Nesting {

  import opened Wrappers
  import Render
  import Pointer
  import Scale

  /** No prefix of `ops` holds more restores than saves plus `depth`. */
  predicate WithinSaves(ops: seq<Render.Op>, depth: nat) {
    forall k :: 0 <= k <= |ops| ==>
      multiset(ops[..k])[Render.Restore] <= multiset(ops[..k])[Render.Save] + depth
  }

  /** Every restore pops a save of the same program, and none is left open. */
  predicate Balanced(ops: seq<Render.Op>) {
    WithinSaves(ops, 0) && multiset(ops)[Render.Restore] == multiset(ops)[Render.Save]
  }

  /** A program that never restores past the `|c.saved|` saves it starts on
      runs to the end, and its stack ends deeper by its saves and shallower
      by its restores. */
  lemma {:induction false} WithinSavesRun(ops: seq<Render.Op>, c: Render.Canvas)
    requires WithinSaves(ops, |c.saved|)
    ensures Render.Run(ops, c).Some?
    ensures |Render.Run(ops, c).value.canvas.saved| + multiset(ops)[Render.Restore]
            == |c.saved| + multiset(ops)[Render.Save]
    decreases |ops|
  {
    if ops != [] {
      var op := ops[0];
      assert ops[..1] == [op];
      var first := Render.Step(c, op).value;
      var rest := ops[1..];
      assert |first.canvas.saved| + multiset([op])[Render.Restore]
             == |c.saved| + multiset([op])[Render.Save];
      forall k | 0 <= k <= |rest|
        ensures multiset(rest[..k])[Render.Restore]
                <= multiset(rest[..k])[Render.Save] + |first.canvas.saved|
      {
        assert ops[..k + 1] == [op] + rest[..k];
      }
      WithinSavesRun(rest, first.canvas);
      assert ops == [op] + rest;
    }
  }

  /** A balanced program never fails and hands back a stack as deep as the
      one it was given. */
  lemma BalancedRun(ops: seq<Render.Op>, c: Render.Canvas)
    requires Balanced(ops)
    ensures Render.Run(ops, c).Some?
    ensures |Render.Run(ops, c).value.canvas.saved| == |c.saved|
  {
    forall k | 0 <= k <= |ops|
      ensures multiset(ops[..k])[Render.Restore] <= multiset(ops[..k])[Render.Save] + |c.saved|
    {
    }
    WithinSavesRun(ops, c);
  }

  /** A program without saves or restores is balanced. */
  lemma FlatBalanced(ops: seq<Render.Op>)
    requires forall j :: 0 <= j < |ops| ==> ops[j] != Render.Save && ops[j] != Render.Restore
    ensures Balanced(ops)
  {
    forall k | 0 <= k <= |ops|
      ensures multiset(ops[..k])[Render.Restore] == 0 && multiset(ops[..k])[Render.Save] == 0
    {
      assert Render.Restore !in ops[..k];
      assert Render.Save !in ops[..k];
    }
    assert ops[..|ops|] == ops;
  }

  /** Two balanced programs in a row are balanced. */
  lemma {:induction false} AppendBalanced(a: seq<Render.Op>, b: seq<Render.Op>)
    requires Balanced(a) && Balanced(b)
    ensures Balanced(a + b)
  {
    var ab := a + b;
    forall k | 0 <= k <= |ab|
      ensures multiset(ab[..k])[Render.Restore] <= multiset(ab[..k])[Render.Save]
    {
      if k <= |a| {
        assert ab[..k] == a[..k];
      } else {
        assert ab[..k] == a + b[..k - |a|];
        assert a[..|a|] == a;
      }
    }
    assert a[..|a|] == a;
  }

  /** A balanced program between a save and a restore is balanced. */
  lemma {:induction false} NestBalanced(x: seq<Render.Op>)
    requires Balanced(x)
    ensures Balanced([Render.Save] + x + [Render.Restore])
  {
    var r := [Render.Save] + x + [Render.Restore];
    forall k | 0 <= k <= |r|
      ensures multiset(r[..k])[Render.Restore] <= multiset(r[..k])[Render.Save]
    {
      if k == |r| {
        assert r[..k] == r;
        assert x[..|x|] == x;
      } else if k > 0 {
        assert r[..k] == [Render.Save] + x[..k - 1];
      }
    }
    assert r[..|r|] == r;
    assert x[..|x|] == x;
  }

  /** A shape drawn under its own save/restore pair is balanced. */
  lemma RotatedBalanced(degrees: int, shape: Render.Shape)
    ensures Balanced(Render.Rotated(degrees, shape))
  {
    var inner := [Render.Rotate(degrees), Render.Draw(shape)];
    FlatBalanced(inner);
    NestBalanced(inner);
    assert Render.Rotated(degrees, shape) == [Render.Save] + inner + [Render.Restore];
  }

  /** One tick of the scale is balanced, and it draws its line once. */
  lemma TickBalanced(t: Scale.Tick, i: int)
    ensures Balanced(Render.TickOps(t, i))
    ensures multiset(Render.TickOps(t, i))[Render.Draw(Render.TickLine(i, t.length))] == 1
  {
    var tail := [Render.Draw(Render.TickLine(i, t.length)), Render.Rotate(Scale.TICK_STEP)];
    FlatBalanced(tail);
    if t.numeral.Some? {
      var head := Render.Rotated(t.numeral.value.counterTurn, Render.NumeralText(t.numeral.value.value));
      RotatedBalanced(t.numeral.value.counterTurn, Render.NumeralText(t.numeral.value.value));
      AppendBalanced(head, tail);
    } else {
      assert Render.TickOps(t, i) == tail;
    }
  }

  /** The scale program is balanced for every schedule of ticks. */
  lemma {:induction false} ScaleBalanced(schedule: seq<Scale.Tick>, i: nat)
    requires i <= |schedule|
    ensures Balanced(Render.ScaleOps(schedule, i))
    decreases |schedule| - i
  {
    if i == |schedule| {
      FlatBalanced([]);
    } else {
      TickBalanced(schedule[i], i);
      ScaleBalanced(schedule, i + 1);
      AppendBalanced(Render.TickOps(schedule[i], i), Render.ScaleOps(schedule, i + 1));
    }
  }

  /** Balanced programs in a row, three or four of them, are balanced. */
  lemma ChainBalanced(a: seq<Render.Op>, b: seq<Render.Op>, c: seq<Render.Op>, d: seq<Render.Op>)
    requires Balanced(a) && Balanced(b) && Balanced(c) && Balanced(d)
    ensures Balanced(a + b + c) && Balanced(a + b + c + d)
  {
    AppendBalanced(a, b);
    AppendBalanced(a + b, c);
    AppendBalanced(a + b + c, d);
  }

  /** The hands' program is balanced. */
  lemma PointerBalanced(a: Pointer.HandAngles)
    ensures Balanced(Render.PointerOps(a))
  {
    RotatedBalanced(a.hour, Render.HourHand);
    RotatedBalanced(a.minute, Render.MinuteHand);
    RotatedBalanced(a.second, Render.SecondHand);
    FlatBalanced([Render.Draw(Render.CenterCap)]);
    ChainBalanced(Render.Rotated(a.hour, Render.HourHand), Render.Rotated(a.minute, Render.MinuteHand),
                  Render.Rotated(a.second, Render.SecondHand), [Render.Draw(Render.CenterCap)]);
  }

  /** The hands' program draws each hand exactly once. */
  lemma PointerDrawsEachHandOnce(a: Pointer.HandAngles)
    ensures multiset(Render.PointerOps(a))[Render.Draw(Render.HourHand)] == 1
    ensures multiset(Render.PointerOps(a))[Render.Draw(Render.MinuteHand)] == 1
    ensures multiset(Render.PointerOps(a))[Render.Draw(Render.SecondHand)] == 1
  {
    HandDrawCount(a, Render.HourHand);
    HandDrawCount(a, Render.MinuteHand);
    HandDrawCount(a, Render.SecondHand);
  }

  /** How often the hands' program draws `shape`: once per hand block that
      holds it. */
  lemma HandDrawCount(a: Pointer.HandAngles, shape: Render.Shape)
    ensures multiset(Render.PointerOps(a))[Render.Draw(shape)]
         == (if shape == Render.HourHand then 1 else 0)
          + (if shape == Render.MinuteHand then 1 else 0)
          + (if shape == Render.SecondHand then 1 else 0)
          + (if shape == Render.CenterCap then 1 else 0)
  {
    var h := Render.Rotated(a.hour, Render.HourHand);
    var m := Render.Rotated(a.minute, Render.MinuteHand);
    var s := Render.Rotated(a.second, Render.SecondHand);
    var cap := [Render.Draw(Render.CenterCap)];
    CountFour(h, m, s, cap, Render.Draw(shape));
    RotatedDraws(a.hour, Render.HourHand, shape);
    RotatedDraws(a.minute, Render.MinuteHand, shape);
    RotatedDraws(a.second, Render.SecondHand, shape);
  }

  /** Occurrences in four programs in a row add up. */
  lemma CountFour(a: seq<Render.Op>, b: seq<Render.Op>, c: seq<Render.Op>, d: seq<Render.Op>, x: Render.Op)
    ensures multiset(a + b + c + d)[x] == multiset(a)[x] + multiset(b)[x] + multiset(c)[x] + multiset(d)[x]
  {
  }

  /** A save/rotate/draw/restore block draws its own shape once and no other. */
  lemma RotatedDraws(degrees: int, shape: Render.Shape, other: Render.Shape)
    ensures multiset(Render.Rotated(degrees, shape))[Render.Draw(other)] == (if other == shape then 1 else 0)
  {
  }

  /** The frame's own save, dial and restore around balanced scale and
      hand programs keep it balanced. */
  lemma {:induction false} FrameFormBalanced(scale: seq<Render.Op>, hands: seq<Render.Op>)
    requires Balanced(scale) && Balanced(hands)
    ensures Balanced([Render.Save, Render.Draw(Render.Dial)] + scale + hands + [Render.Restore])
  {
    var dial := [Render.Draw(Render.Dial)];
    FlatBalanced(dial);
    FlatBalanced([]);
    ChainBalanced(dial, scale, hands, []);
    NestBalanced(dial + scale + hands);
    assert [Render.Save, Render.Draw(Render.Dial)] + scale + hands + [Render.Restore]
        == [Render.Save] + (dial + scale + hands) + [Render.Restore];
  }

  /** A whole frame is balanced, whatever tick records it draws. */
  lemma FrameBalanced(t: Pointer.ClockTime, schedule: seq<Scale.Tick>)
    ensures Balanced(Render.FrameOps(t, schedule))
  {
    ScaleBalanced(schedule, 0);
    PointerBalanced(Pointer.Angles(t));
    FrameFormBalanced(Render.ScaleOps(schedule, 0), Render.PointerOps(Pointer.Angles(t)));
  }

  /** No frame ever makes the canvas fail, whatever tick records it draws,
      and it leaves the save stack as deep as it found it. */
  lemma FrameNeverFails(t: Pointer.ClockTime, schedule: seq<Scale.Tick>, c: Render.Canvas)
    ensures Render.Run(Render.FrameOps(t, schedule), c).Some?
    ensures |Render.Run(Render.FrameOps(t, schedule), c).value.canvas.saved| == |c.saved|
  {
    FrameBalanced(t, schedule);
    BalancedRun(Render.FrameOps(t, schedule), c);
  }
}
