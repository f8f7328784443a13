/**
 update_filter's in-place moves on the flat memory, as values: what the moves for one channel
 do, and why channels moved one after the other never overwrite one still to be moved.
 */
module Realigning {
  import opened Arithmetic
  import opened Channel
  import opened FilterLength
  import opened Blocks

  // Where channel k's memory starts.
  function Start(k: nat, alloc: nat): nat {
    k * alloc
  }

  lemma StartBound(k: nat, n: nat, alloc: nat)
    requires k < n
    ensures Start(k, alloc) + alloc <= n * alloc
  {
    MulMono(k + 1, n, alloc);
    Distribute(k, 1, alloc);
  }

  lemma StartApart(k: nat, ch: nat, alloc: nat)
    requires k != ch
    ensures Start(k, alloc) + alloc <= Start(ch, alloc) || Start(ch, alloc) + alloc <= Start(k, alloc)
    ensures k < ch ==> Start(k, alloc) + alloc <= Start(ch, alloc)
  {
    if k < ch { StartBound(k, ch, alloc); } else { StartBound(ch, k, alloc); }
  }

  lemma StartMono(k: nat, alloc: nat, alloc': nat)
    requires alloc <= alloc'
    ensures Start(k, alloc) <= Start(k, alloc')
  {
    MulMono(alloc, alloc', k);
  }

  function Slice(s: seq<real>, lo: nat, hi: int): seq<real> {
    if lo <= hi <= |s| then s[lo..hi] else []
  }

  // Per-channel counters and the flat memory.
  datatype Bank = Bank(last: seq<int>, frac: seq<int>, magic: seq<int>, mem: seq<real>)

  predicate Even(z: Bank) {
    |z.last| == |z.frac| == |z.magic|
  }

  // Channel k of the bank: its history and magic samples, and its position.
  function ChanIn(z: Bank, taps: int, alloc: nat, k: nat): Channel
    requires Even(z) && k < |z.last|
  {
    Channel(Slice(z.mem, Start(k, alloc), Start(k, alloc) + taps - 1 + z.magic[k]), z.last[k], z.frac[k])
  }

  function ChansIn(z: Bank, taps: int, alloc: nat): (cs: seq<Channel>)
    requires Even(z)
    ensures |cs| == |z.last|
  {
    seq(|z.last|, k requires 0 <= k < |z.last| => ChanIn(z, taps, alloc, k))
  }

  // Step one of growing a channel: its samples move from the old stride to the new one, past
  // as many zeros as it has magic samples.
  function Widened(s: seq<real>, from: nat, to: nat, n: nat, magic: nat): (r: seq<real>)
    requires from + n <= |s| && to + magic + n <= |s|
    ensures |r| == |s|
  {
    Cleared(Blit(s, to + magic, from, n), to, magic)
  }

  method Widen(a: array<real>, from: nat, to: nat, n: nat, magic: nat)
    requires from <= to && to + magic + n <= a.Length
    modifies a
    ensures a[..] == Widened(old(a[..]), from, to, n, magic)
  {
    MoveUp(a, to + magic, from, n);
    Clear(a, to, magic);
  }

  lemma WidenedHolds(s: seq<real>, from: nat, to: nat, n: nat, magic: nat, alloc: nat)
    requires from + n <= |s| && magic + n <= alloc && to + alloc <= |s|
    ensures var r := Widened(s, from, to, n, magic);
            && r[to..to + magic + n] == Zeros(magic) + s[from..from + n]
            && OnlyWithin(s, r, to, alloc)
  {
    BlitWithin(s, to + magic, from, n, to, alloc);
    ClearedWithin(Blit(s, to + magic, from, n), to, magic, to, alloc);
    OnlyWithinTwice(s, Blit(s, to + magic, from, n), Widened(s, from, to, n, magic), to, alloc);
    WidenedSlice(s, from, to, n, magic);
    hide Widened, Blit, OnlyWithin;
  }

  lemma WidenedSlice(s: seq<real>, from: nat, to: nat, n: nat, magic: nat)
    requires from + n <= |s| && to + magic + n <= |s|
    ensures Widened(s, from, to, n, magic)[to..to + magic + n] == Zeros(magic) + s[from..from + n]
  {
    var q := Blit(s, to + magic, from, n);
    var r := Cleared(q, to, magic);
    BlitSlice(s, to + magic, from, n, to + magic, to + magic + n);
    hide Blit;
    assert r[to..to + magic] == Zeros(magic);
    assert r[to + magic..to + magic + n] == q[to + magic..to + magic + n];
    hide Cleared, Zeros;
    assert r[to..to + magic + n] == r[to..to + magic] + r[to + magic..to + magic + n];
  }

  // Step two when the new filter is longer still: pad with zeros on the left.
  function Padded(s: seq<real>, to: nat, n: nat, pad: nat): (r: seq<real>)
    requires to + pad + n <= |s|
    ensures |r| == |s|
  {
    Cleared(Blit(s, to + pad, to, n), to, pad)
  }

  method Pad(a: array<real>, to: nat, n: nat, pad: nat)
    requires to + pad + n <= a.Length
    modifies a
    ensures a[..] == Padded(old(a[..]), to, n, pad)
  {
    MoveUp(a, to + pad, to, n);
    Clear(a, to, pad);
  }

  lemma PaddedHolds(s: seq<real>, to: nat, n: nat, pad: nat, alloc: nat)
    requires pad + n <= alloc && to + alloc <= |s|
    ensures var r := Padded(s, to, n, pad);
            && r[to..to + pad + n] == Zeros(pad) + s[to..to + n]
            && OnlyWithin(s, r, to, alloc)
  {
    WidenedHolds(s, to, to, n, pad, alloc);
  }

  lemma DroppedHolds(s: seq<real>, to: nat, n: nat, drop: nat, alloc: nat)
    requires drop + n <= alloc && to + alloc <= |s|
    ensures var r := Blit(s, to, to + drop, n);
            && r[to..to + n] == s[to..to + drop + n][drop..]
            && OnlyWithin(s, r, to, alloc)
  {
    BlitSlice(s, to, to + drop, n, to, to + n);
    BlitWithin(s, to, to + drop, n, to, alloc);
    hide Blit;
    assert s[to..to + drop + n][drop..] == s[to + drop..to + drop + n];
  }

  lemma ZerosJoin(a: nat, b: nat)
    ensures Zeros(a) + Zeros(b) == Zeros(a + b)
  {
  }

  // Realign with the new length spelled out.
  lemma RealignPast(c: Channel, was: pos, now: pos)
    requires |c.memory| >= was - 1 && was % 2 == 0 && now % 2 == 0
    requires now > was + 2 * (|c.memory| - (was - 1))
    ensures var magic := |c.memory| - (was - 1);
            var pad := now - (was + 2 * magic);
            Realign(c, was, now) == Channel(Zeros(pad) + (Zeros(magic) + c.memory), c.last + pad / 2, c.frac)
  {
    var magic := |c.memory| - (was - 1);
    var pad := now - (was + 2 * magic);
    ZerosJoin(pad, magic);
    assert Zeros(pad) + (Zeros(magic) + c.memory) == Zeros(pad) + Zeros(magic) + c.memory;
    assert pad + magic == 2 * ((now - was) / 2) - magic;
    assert pad / 2 == (now - was) / 2 - magic;
    hide Zeros;
  }

  lemma RealignWithin(c: Channel, was: pos, now: pos)
    requires |c.memory| >= was - 1 && was % 2 == 0 && now % 2 == 0 && was <= now
    requires now <= was + 2 * (|c.memory| - (was - 1))
    ensures var magic := |c.memory| - (was - 1);
            var left := (was + 2 * magic - now) / 2;
            && left <= magic
            && Realign(c, was, now) == c.(memory := (Zeros(magic) + c.memory)[left..])
  {
    var magic := |c.memory| - (was - 1);
    var left := (was + 2 * magic - now) / 2;
    assert left + (now - was) / 2 == magic;
    assert (Zeros(magic) + c.memory)[left..] == Zeros(magic - left) + c.memory;
  }

  // The longer filter swallows all magic samples.
  lemma GrownPast(s: seq<real>, from: nat, to: nat, c: Channel, was: pos, now: pos, alloc: nat)
    requires |c.memory| >= was - 1 && was % 2 == 0 && now % 2 == 0
    requires from + |c.memory| <= |s| && c.memory == s[from..from + |c.memory|]
    requires var magic := |c.memory| - (was - 1); now > was + 2 * magic && now - 1 <= alloc && to + alloc <= |s|
    ensures var magic := |c.memory| - (was - 1);
            var w := Widened(s, from, to, |c.memory|, magic);
            var r := Padded(w, to, was + 2 * magic - 1, now - (was + 2 * magic));
            && r[to..to + now - 1] == Realign(c, was, now).memory
            && Realign(c, was, now).last == c.last + (now - (was + 2 * magic)) / 2
               && Realign(c, was, now).frac == c.frac
            && |Realign(c, was, now).memory| == now - 1
            && OnlyWithin(s, r, to, alloc)
  {
    hide Widened, Padded, Blit, OnlyWithin, Realign, Zeros;
    var magic := |c.memory| - (was - 1);
    var pad := now - (was + 2 * magic);
    var w := Widened(s, from, to, |c.memory|, magic);
    WidenedHolds(s, from, to, |c.memory|, magic, alloc);
    PaddedHolds(w, to, was + 2 * magic - 1, pad, alloc);
    OnlyWithinTwice(s, w, Padded(w, to, was + 2 * magic - 1, pad), to, alloc);
    RealignPast(c, was, now);
  }

  // The longer filter swallows only some of them.
  lemma GrownWithin(s: seq<real>, from: nat, to: nat, c: Channel, was: pos, now: pos, alloc: nat)
    requires |c.memory| >= was - 1 && was % 2 == 0 && now % 2 == 0 && was <= now
    requires from + |c.memory| <= |s| && c.memory == s[from..from + |c.memory|]
    requires var magic := |c.memory| - (was - 1);
             now <= was + 2 * magic && was - 1 + 2 * magic <= alloc && to + alloc <= |s|
    ensures var magic := |c.memory| - (was - 1);
            var left := (was + 2 * magic - now) / 2;
            var w := Widened(s, from, to, |c.memory|, magic);
            var r := Blit(w, to, to + left, now - 1 + left);
            && r[to..to + now - 1 + left] == Realign(c, was, now).memory
            && Realign(c, was, now).last == c.last && Realign(c, was, now).frac == c.frac
            && |Realign(c, was, now).memory| == now - 1 + left
            && OnlyWithin(s, r, to, alloc)
  {
    hide Widened, Padded, Blit, OnlyWithin, Realign, Zeros;
    var magic := |c.memory| - (was - 1);
    var left := (was + 2 * magic - now) / 2;
    var w := Widened(s, from, to, |c.memory|, magic);
    WidenedHolds(s, from, to, |c.memory|, magic, alloc);
    DroppedHolds(w, to, now - 1 + left, left, alloc);
    OnlyWithinTwice(s, w, Blit(w, to, to + left, now - 1 + left), to, alloc);
    RealignWithin(c, was, now);
  }

  // The shorter filter leaves what it no longer covers as magic samples.
  lemma Shrunk(s: seq<real>, at: nat, c: Channel, was: pos, now: pos, alloc: nat)
    requires |c.memory| >= was - 1 && was % 2 == 0 && now % 2 == 0 && now < was
    requires |c.memory| <= alloc && at + alloc <= |s| && c.memory == s[at..at + |c.memory|]
    ensures var magic := |c.memory| - (was - 1);
            var left := (was - now) / 2;
            var r := Blit(s, at, at + left, now - 1 + left + magic);
            && r[at..at + now - 1 + left + magic] == Realign(c, was, now).memory
            && Realign(c, was, now).last == c.last && Realign(c, was, now).frac == c.frac
            && |Realign(c, was, now).memory| == now - 1 + left + magic
            && OnlyWithin(s, r, at, alloc)
  {
    hide Widened, Padded, Blit, OnlyWithin, Realign, Zeros;
    var magic := |c.memory| - (was - 1);
    var left := (was - now) / 2;
    DroppedHolds(s, at, now - 1 + left + magic, left, alloc);
    assert left + (now - 1 + left + magic) == |c.memory|;
    ShrinkIsDrop(c, was, now);
  }

  // Channel k of the bank is c.
  ghost predicate IsChannel(z: Bank, taps: pos, alloc: nat, k: nat, c: Channel)
    requires Even(z)
  {
    && k < |z.last|
    && z.last[k] == c.last && z.frac[k] == c.frac && z.magic[k] == |c.memory| - (taps - 1)
    && |c.memory| <= alloc && Start(k, alloc) + |c.memory| <= |z.mem|
    && c.memory == z.mem[Start(k, alloc)..Start(k, alloc) + |c.memory|]
  }

  lemma IsChannelIn(z: Bank, taps: pos, alloc: nat, k: nat, c: Channel)
    requires Even(z) && IsChannel(z, taps, alloc, k, c)
    ensures ChanIn(z, taps, alloc, k) == c
  {
  }

  // A channel whose memory lies apart from what has changed is still there.
  lemma StillThere(z: Bank, z': Bank, taps: pos, alloc: nat, k: nat, c: Channel, b: nat, n: nat)
    requires Even(z) && Even(z') && IsChannel(z, taps, alloc, k, c)
    requires |z'.last| == |z.last| && z'.last[k] == z.last[k] && z'.frac[k] == z.frac[k] && z'.magic[k] == z.magic[k]
    requires OnlyWithin(z.mem, z'.mem, b, n)
    requires Start(k, alloc) + |c.memory| <= b || b + n <= Start(k, alloc)
    ensures IsChannel(z', taps, alloc, k, c)
  {
    SameSize(z.mem, z'.mem, b, n);
    OutsideSame(z.mem, z'.mem, b, n, Start(k, alloc), Start(k, alloc) + |c.memory|);
    hide OnlyWithin, Start;
  }

  // Channels from lo up to hi have been realigned at the new stride; the others still are as
  // they were, at the old stride.
  ghost predicate Moved(cs: seq<Channel>, was: pos, oldAlloc: nat, now: pos, alloc: nat, lo: nat, hi: nat, z: Bank)
    requires was % 2 == 0 && now % 2 == 0
    requires forall k: nat :: k < |cs| ==> |cs[k].memory| >= was - 1
  {
    && Even(z) && |cs| == |z.last|
    && forall k: nat :: k < |cs| ==>
         if lo <= k < hi then IsChannel(z, now, alloc, k, Realign(cs[k], was, now))
         else IsChannel(z, was, oldAlloc, k, cs[k])
  }

  // Moving one channel, either the last one not yet moved to a longer stride or the first one
  // within the same stride.
  lemma MovedStep(cs: seq<Channel>, was: pos, oldAlloc: nat, now: pos, alloc: nat, lo: nat, hi: nat, lo': nat, hi': nat,
                  i: nat, z: Bank, z': Bank)
    requires was % 2 == 0 && now % 2 == 0
    requires forall k: nat :: k < |cs| ==> |cs[k].memory| >= was - 1
    requires Moved(cs, was, oldAlloc, now, alloc, lo, hi, z) && i < |cs|
    requires || (lo' == i && lo == i + 1 && hi == hi' == |cs| && oldAlloc <= alloc)
             || (lo == lo' == 0 && hi == i && hi' == i + 1 && oldAlloc == alloc)
    requires Even(z') && IsChannel(z', now, alloc, i, Realign(cs[i], was, now))
    requires z'.last == z.last[i := z'.last[i]] && z'.frac == z.frac && z'.magic == z.magic[i := z'.magic[i]]
    requires OnlyWithin(z.mem, z'.mem, Start(i, alloc), alloc)
    ensures Moved(cs, was, oldAlloc, now, alloc, lo', hi', z')
  {
    hide IsChannel, OnlyWithin, Start, Realign;
    forall k: nat | k < |cs| && k != i
      ensures if lo' <= k < hi' then IsChannel(z', now, alloc, k, Realign(cs[k], was, now))
              else IsChannel(z', was, oldAlloc, k, cs[k])
    {
      StartApart(k, i, alloc);
      StartApart(k, i, oldAlloc);
      StartMono(i, oldAlloc, alloc);
      if lo' <= k < hi' {
        IsChannelRoom(z, now, alloc, k, Realign(cs[k], was, now));
        StillThere(z, z', now, alloc, k, Realign(cs[k], was, now), Start(i, alloc), alloc);
      } else {
        IsChannelRoom(z, was, oldAlloc, k, cs[k]);
        StillThere(z, z', was, oldAlloc, k, cs[k], Start(i, alloc), alloc);
      }
    }
  }

  lemma IsChannelRoom(z: Bank, taps: pos, alloc: nat, k: nat, c: Channel)
    requires Even(z) && IsChannel(z, taps, alloc, k, c)
    ensures |c.memory| <= alloc && k < |z.last|
  {
  }

  lemma ChannelFacts(z: Bank, taps: pos, alloc: nat, k: nat, c: Channel)
    requires Even(z) && IsChannel(z, taps, alloc, k, c)
    ensures k < |z.last| && z.last[k] == c.last && z.frac[k] == c.frac && z.magic[k] == |c.memory| - (taps - 1)
    ensures |c.memory| <= alloc && Start(k, alloc) + |c.memory| <= |z.mem|
    ensures c.memory == z.mem[Start(k, alloc)..Start(k, alloc) + |c.memory|]
  {
  }

  lemma MakeChannel(z: Bank, taps: pos, alloc: nat, k: nat, c: Channel, n: nat)
    requires Even(z) && k < |z.last| && z.last[k] == c.last && z.frac[k] == c.frac && z.magic[k] == n - (taps - 1)
    requires n <= alloc && Start(k, alloc) + n <= |z.mem| && |c.memory| == n
    requires z.mem[Start(k, alloc)..Start(k, alloc) + n] == c.memory
    ensures IsChannel(z, taps, alloc, k, c)
  {
  }

  // Growing one channel's memory in place, from the old stride to the new one.
  method GrowMemory(a: array<real>, from: nat, to: nat, was: pos, now: pos, magic: nat, alloc: nat, ghost c: Channel)
    requires was % 2 == 0 && now % 2 == 0 && was < now && |c.memory| == was - 1 + magic
    requires from <= to && to + alloc <= a.Length && now - 1 <= alloc && was - 1 + 2 * magic <= alloc
    requires a[..][from..from + |c.memory|] == c.memory
    modifies a
    ensures var r := Realign(c, was, now);
            && |r.memory| <= alloc && a[..][to..to + |r.memory|] == r.memory
            && |r.memory| == (if now > was + 2 * magic then now - 1 else now - 1 + (was + 2 * magic - now) / 2)
            && r.last == c.last + (if now > was + 2 * magic then (now - (was + 2 * magic)) / 2 else 0)
            && r.frac == c.frac
    ensures OnlyWithin(old(a[..]), a[..], to, alloc)
  {
    hide Blit, Widened, Padded, Realign, OnlyWithin;
    ghost var s := a[..];
    var olen := was + 2 * magic;
    Widen(a, from, to, was - 1 + magic, magic);
    if now > olen {
      GrownPast(s, from, to, c, was, now, alloc);
      Pad(a, to, olen - 1, now - olen);
    } else {
      GrownWithin(s, from, to, c, was, now, alloc);
      var left := (olen - now) / 2;
      MoveDown(a, to, to + left, now - 1 + left);
    }
  }

  // All channels of a bank, each as the list says.
  ghost predicate AreChannels(z: Bank, taps: pos, alloc: nat, cs: seq<Channel>) {
    && Even(z) && |cs| == |z.last|
    && forall k: nat :: k < |cs| ==> IsChannel(z, taps, alloc, k, cs[k])
  }

  lemma ChannelsIn(z: Bank, taps: pos, alloc: nat, cs: seq<Channel>)
    requires AreChannels(z, taps, alloc, cs)
    ensures ChansIn(z, taps, alloc) == cs
  {
    hide IsChannel, ChanIn;
    forall k: nat | k < |cs|
      ensures ChanIn(z, taps, alloc, k) == cs[k]
    {
      IsChannelIn(z, taps, alloc, k, cs[k]);
    }
  }

  function RealignAll(cs: seq<Channel>, was: pos, now: pos): (r: seq<Channel>)
    requires was % 2 == 0 && now % 2 == 0
    requires forall k: nat :: k < |cs| ==> |cs[k].memory| >= was - 1
    ensures |r| == |cs|
  {
    seq(|cs|, k requires 0 <= k < |cs| => Realign(cs[k], was, now))
  }

  lemma NoneMoved(cs: seq<Channel>, was: pos, oldAlloc: nat, now: pos, alloc: nat, i: nat, z: Bank)
    requires was % 2 == 0 && now % 2 == 0
    requires forall k: nat :: k < |cs| ==> |cs[k].memory| >= was - 1
    requires AreChannels(z, was, oldAlloc, cs)
    ensures Moved(cs, was, oldAlloc, now, alloc, i, i, z)
  {
    hide IsChannel, Realign;
  }

  lemma AllMoved(cs: seq<Channel>, was: pos, oldAlloc: nat, now: pos, alloc: nat, z: Bank)
    requires was % 2 == 0 && now % 2 == 0
    requires forall k: nat :: k < |cs| ==> |cs[k].memory| >= was - 1
    requires Moved(cs, was, oldAlloc, now, alloc, 0, |cs|, z)
    ensures AreChannels(z, now, alloc, RealignAll(cs, was, now))
  {
    hide IsChannel, Realign;
  }

  lemma RealignSame(c: Channel, taps: pos)
    requires |c.memory| >= taps - 1 && taps % 2 == 0
    ensures Realign(c, taps, taps) == c
  {
    assert Zeros(0) + c.memory == c.memory;
  }

  lemma RealignAllSame(cs: seq<Channel>, taps: pos)
    requires taps % 2 == 0 && forall k: nat :: k < |cs| ==> |cs[k].memory| >= taps - 1
    ensures RealignAll(cs, taps, taps) == cs
  {
    hide Realign;
    forall k: nat | k < |cs|
      ensures Realign(cs[k], taps, taps) == cs[k]
    {
      RealignSame(cs[k], taps);
    }
  }

  // A larger memory that begins with the old one still holds the channels, at the old stride.
  lemma Enlarged(z: Bank, mem: seq<real>, taps: pos, alloc: nat, cs: seq<Channel>)
    requires AreChannels(z, taps, alloc, cs) && |mem| >= |z.mem| && mem[..|z.mem|] == z.mem
    ensures AreChannels(z.(mem := mem), taps, alloc, cs)
  {
    forall k: nat | k < |cs|
      ensures IsChannel(z.(mem := mem), taps, alloc, k, cs[k])
    {
      ChannelFacts(z, taps, alloc, k, cs[k]);
      SubSlice(mem, 0, |z.mem|, Start(k, alloc), Start(k, alloc) + |cs[k].memory|);
      assert mem[0..|z.mem|] == z.mem;
      MakeChannel(z.(mem := mem), taps, alloc, k, cs[k], |cs[k].memory|);
    }
  }

  // Every channel has room for its history, twice its magic samples and one buffer of input.
  ghost predicate RoomFor(cs: seq<Channel>, taps: pos, buffer: nat, alloc: nat) {
    forall k: nat :: k < |cs| ==>
      |cs[k].memory| >= taps - 1 && taps - 1 + 2 * (|cs[k].memory| - (taps - 1)) + buffer <= alloc
  }

  lemma AreEven(z: Bank, taps: pos, alloc: nat, cs: seq<Channel>)
    requires AreChannels(z, taps, alloc, cs)
    ensures Even(z) && |z.last| == |cs|
  {
  }
}
