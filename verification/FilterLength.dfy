/**
 Changing the filter length between calls. update_filter moves every channel's memory so
 that the middle of the filter stays on the same sample; `Realign` says where it ends up.
 */
module FilterLength {
  import opened Arithmetic
  import opened Polyphase
  import opened Channel
  import opened FilterDesign

  // What one channel becomes when the filter goes from `was` to `now` taps: half the
  // difference is added or dropped on the left, which moves as many samples out of or into
  // the magic samples; a longer filter that uses them up is padded on the left with zeros,
  // and the position moves with the padding.
  function Realign(c: Channel, was: pos, now: pos): (r: Channel)
    requires |c.memory| >= was - 1 && was % 2 == 0 && now % 2 == 0
    ensures |r.memory| >= now - 1
  {
    var magic := |c.memory| - (was - 1);
    var d := (now - was) / 2;
    if d < 0 then c.(memory := c.memory[-d..])
    else if d <= magic then c.(memory := Zeros(d) + c.memory)
    else c.(memory := Zeros(2 * d - magic) + c.memory, last := c.last + d - magic)
  }

  // The sample t places right of the middle of the filter; nothing held counts as zero.
  function FromMiddle(c: Channel, taps: pos, t: int): real {
    At(c.memory, c.last + taps / 2 + t)
  }

  // How many samples right of the middle the next input sample will go.
  function Frontier(c: Channel, taps: pos): int {
    |c.memory| - (c.last + taps / 2)
  }

  ghost predicate Holds(c: Channel, taps: pos, t: int) {
    c.last + taps / 2 + t >= 0
  }

  /**
   A change of filter length keeps alignment: every sample still held is the same distance
   from the middle as before, and the next input sample will be too. The new channel holds
   everything the old one did unless the filter shrinks.
   */
  lemma RealignKeepsAlignment(c: Channel, was: pos, now: pos)
    requires |c.memory| >= was - 1 && was % 2 == 0 && now % 2 == 0
    ensures var c' := Realign(c, was, now);
            && |c'.memory| >= now - 1
            && c'.frac == c.frac && c'.last >= c.last
            && Frontier(c', now) == Frontier(c, was)
            && (forall t :: Holds(c', now, t) ==> FromMiddle(c', now, t) == FromMiddle(c, was, t))
            && (now >= was ==> forall t :: Holds(c, was, t) ==> Holds(c', now, t))
  {
  }

  // The memory update_filter allocates is enough before if it is enough after, and conversely.
  lemma RealignRoom(c: Channel, was: pos, now: pos)
    requires |c.memory| >= was - 1 && was % 2 == 0 && now % 2 == 0
    ensures var magic := |c.memory| - (was - 1);
            var magic' := |Realign(c, was, now).memory| - (now - 1);
            && magic' == Max(0, magic - (now - was) / 2)
            && now - 1 + 2 * magic' == Max(now - 1, was - 1 + 2 * magic)
  {
  }

  /**
   Shrink, then grow back with no processing between: the same position, the same magic
   samples and the same memory, except that the oldest (was - now) / 2 samples are now zero.
   */
  lemma ShrinkThenGrow(c: Channel, was: pos, now: pos)
    requires |c.memory| >= was - 1 && was % 2 == 0 && now % 2 == 0 && now <= was
    ensures var lost := (was - now) / 2;
            Realign(Realign(c, was, now), now, was) == c.(memory := Zeros(lost) + c.memory[lost..])
  {
  }

  // Grow, then shrink back: nothing is lost, and the position moves only with the padding.
  lemma GrowThenShrink(c: Channel, was: pos, now: pos)
    requires |c.memory| >= was - 1 && was % 2 == 0 && now % 2 == 0 && was <= now
    ensures var pad := Max(0, (now - was) / 2 - (|c.memory| - (was - 1)));
            Realign(Realign(c, was, now), now, was)
            == c.(memory := Zeros(pad) + c.memory, last := c.last + pad)
  {
    var d := (now - was) / 2;
    var magic := |c.memory| - (was - 1);
    var c' := Realign(c, was, now);
    if d > 0 {
      assert -((was - now) / 2) == d;
      if d <= magic {
        assert (Zeros(d) + c.memory)[d..] == Zeros(0) + c.memory;
      } else {
        assert (Zeros(2 * d - magic) + c.memory)[d..] == Zeros(d - magic) + c.memory;
      }
    } else {
      assert Zeros(0) + c.memory == c.memory;
    }
  }

  // Shrinking in two steps is shrinking in one.
  lemma ShrinkTwice(c: Channel, a: pos, b: pos, e: pos)
    requires |c.memory| >= a - 1 && a % 2 == 0 && b % 2 == 0 && e % 2 == 0 && e <= b <= a
    ensures Realign(Realign(c, a, b), b, e) == Realign(c, a, e)
  {
    ShrinkIsDrop(c, a, b);
    ShrinkIsDrop(c, a, e);
    var c' := Realign(c, a, b);
    ShrinkIsDrop(c', b, e);
    DropTwice(c.memory, (a - b) / 2, (b - e) / 2);
  }

  lemma ShrinkIsDrop(c: Channel, was: pos, now: pos)
    requires |c.memory| >= was - 1 && was % 2 == 0 && now % 2 == 0 && now <= was
    ensures Realign(c, was, now) == c.(memory := c.memory[(was - now) / 2..])
  {
    assert Zeros(0) + c.memory == c.memory[0..];
  }

  lemma DropTwice(x: seq<real>, i: nat, j: nat)
    requires i + j <= |x|
    ensures x[i..][j..] == x[i + j..]
    ensures x[0..] == x
  {
  }

  /**
   Every later output is centred where it would have been without the change: output k has the
   same phase, the middle of its window is the same distance from the next input sample, and
   all samples at the same distance from there are the same, whatever input follows.
   */
  lemma RealignedOutputs(f: Filter, g: Filter, c: Channel, data: seq<real>, k: nat)
    requires Fits(f, c) && f.taps % 2 == 0 && g.taps % 2 == 0 && g.num == f.num && g.den == f.den
    ensures var c' := Realign(c, f.taps, g.taps);
            var p := Pos(f, c) + k * f.num;
            var p' := Pos(g, c') + k * g.num;
            && Fits(g, c')
            && p' % g.den == p % f.den
            && |c'.memory| - (p' / g.den + g.taps / 2) == |c.memory| - (p / f.den + f.taps / 2)
            && (forall i :: i >= 0 ==>
                  At(c'.memory + data, i) == At(c.memory + data, i - |c'.memory| + |c.memory|))
  {
    var c' := Realign(c, f.taps, g.taps);
    RealignKeepsAlignment(c, f.taps, g.taps);
    SameRight(c, c', f.taps, g.taps, data);
    hide Realign;
    ShiftedPos(c.last, c'.last, c.frac + k * f.num, f.den);
  }

  // A channel carried over to new rates: the phase to the new denominator, the memory to the
  // new filter length.
  function CarryOver(c: Channel, f: Filter, g: Filter): (r: Channel)
    requires |c.memory| >= f.taps - 1 && f.taps % 2 == 0 && g.taps % 2 == 0
    ensures |r.memory| >= g.taps - 1
  {
    Realign(c.(frac := Rescale(c.frac, g.den, f.den)), f.taps, g.taps)
  }

  // From the centre of the next output to the next input sample, in units of 1 / (den * scale).
  function ToFrontier(c: Channel, taps: pos, den: pos, scale: int): int {
    (Frontier(c, taps) * den - c.frac) * scale
  }

  /**
   A change of rates, of filter, or of both: every sample still held keeps its distance from the
   middle of the filter, the next input sample too, and the centre of the next output moves away
   from it by less than 1 / den' of a sample, den' being the new denominator.
   */
  lemma RateChangeKeepsPosition(c: Channel, f: Filter, g: Filter)
    requires Fits(f, c) && f.taps % 2 == 0 && g.taps % 2 == 0
    ensures var c' := CarryOver(c, f, g);
            && Fits(g, c')
            && Frontier(c', g.taps) == Frontier(c, f.taps)
            && (forall t :: Holds(c', g.taps, t) ==> FromMiddle(c', g.taps, t) == FromMiddle(c, f.taps, t))
            && 0 <= ToFrontier(c', g.taps, g.den, f.den) - ToFrontier(c, f.taps, f.den, g.den) < f.den
  {
    var d := c.(frac := Rescale(c.frac, g.den, f.den));
    RescaleIsFloor(c.frac, g.den, f.den);
    RealignKeepsAlignment(d, f.taps, g.taps);
    hide Realign, Rescale;
    var m := Frontier(c, f.taps);
    assert (m * g.den - d.frac) * f.den - (m * f.den - c.frac) * g.den == c.frac * g.den - d.frac * f.den;
    Distribute(d.frac, 1, f.den);
  }

  lemma ShiftedPos(last: int, last': int, rest: int, den: pos)
    ensures (last' * den + rest) % den == (last * den + rest) % den
    ensures (last' * den + rest) / den - last' == (last * den + rest) / den - last
  {
    Distribute(last', last, den);
    DivShift(last' * den + rest, last' - last, den);
  }

  // With the frontiers aligned, so is everything after them.
  lemma SameRight(c: Channel, c': Channel, was: pos, now: pos, data: seq<real>)
    requires Frontier(c', now) == Frontier(c, was)
    requires forall t :: Holds(c', now, t) ==> FromMiddle(c', now, t) == FromMiddle(c, was, t)
    ensures forall i :: i >= 0 ==>
              At(c'.memory + data, i) == At(c.memory + data, i - (c'.last + now / 2) + (c.last + was / 2))
  {
    forall i | i >= 0
      ensures At(c'.memory + data, i) == At(c.memory + data, i - (c'.last + now / 2) + (c.last + was / 2))
    {
      var t := i - (c'.last + now / 2);
      assert Holds(c', now, t);
      assert FromMiddle(c', now, t) == FromMiddle(c, was, t);
    }
  }
}
