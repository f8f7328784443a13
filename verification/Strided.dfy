/** Reading and writing every d-th sample of a buffer, as interleaved channels do. */
module Strided {
  import opened Arithmetic
  import opened Polyphase

  function Put(s: seq<real>, i: int, v: real): (r: seq<real>)
    ensures |r| == |s|
  {
    if 0 <= i < |s| then s[i := v] else s
  }

  // s with vals written at o, o + d, o + 2 * d, ...
  function Scatter(s: seq<real>, o: nat, d: pos, vals: seq<real>): (r: seq<real>)
    ensures |r| == |s|
  {
    if vals == [] then s
    else
      var m := |vals| - 1;
      Put(Scatter(s, o, d, vals[..m]), o + m * d, vals[m])
  }

  // The n samples of s at o, o + d, o + 2 * d, ...
  function Gather(s: seq<real>, o: nat, d: pos, n: nat): (r: seq<real>)
    ensures |r| == n
  {
    seq(n, j requires 0 <= j < n => At(s, o + j * d))
  }

  lemma {:induction false} ScatterConcat(s: seq<real>, o: nat, d: pos, a: seq<real>, b: seq<real>)
    ensures Scatter(Scatter(s, o, d, a), o + |a| * d, d, b) == Scatter(s, o, d, a + b)
  {
    if b == [] {
      assert a + b == a;
    } else {
      var m := |b| - 1;
      ScatterConcat(s, o, d, a, b[..m]);
      assert (a + b)[..|a + b| - 1] == a + b[..m];
      Distribute(|a|, m, d);
    }
  }

  // A slot the values reach holds its value; every other slot is as it was.
  lemma {:induction false} ScatterAt(s: seq<real>, o: nat, d: pos, vals: seq<real>, i: nat)
    requires i < |s|
    ensures var k := (i - o) / d;
            Scatter(s, o, d, vals)[i] ==
            if o <= i && (i - o) % d == 0 && k < |vals| then vals[k] else s[i]
  {
    if vals == [] {
    } else {
      var m := |vals| - 1;
      ScatterAt(s, o, d, vals[..m], i);
      DivMod(i - o, d);
      if i == o + m * d {
        DivModUnique(i - o, m, 0, d);
      } else if o <= i {
        StartsBefore(i - o, 0, d);
      }
    }
  }

  // Slot k * d + c of a frame layout with d channels belongs to channel c alone.
  lemma SlotOwner(k: nat, c: nat, c': nat, d: pos)
    requires c < d && c' < d
    ensures (k * d + c - c') % d == 0 <==> c == c'
    ensures c == c' ==> (k * d + c - c') / d == k
  {
    if c == c' {
      MulMono(0, k, d);
      DivModUnique(k * d, k, 0, d);
    } else if c > c' {
      DivModUnique(k * d + c - c', k, c - c', d);
    } else {
      Distribute(k, 1, d);
      DivModUnique(k * d + c - c', k - 1, d + c - c', d);
    }
  }

  // The channels' outputs written one channel after the other into frames of d samples.
  function ScatterChannels(s: seq<real>, o: nat, d: pos, outs: seq<seq<real>>): (r: seq<real>)
    ensures |r| == |s|
  {
    if outs == [] then s
    else
      var m := |outs| - 1;
      Scatter(ScatterChannels(s, o, d, outs[..m]), o + m, d, outs[m])
  }

  // Sample c of frame k is output k of channel c; frames past a channel's outputs are as they were.
  lemma {:induction false} ScatterChannelsAt(s: seq<real>, o: nat, d: pos, outs: seq<seq<real>>, k: nat, c: nat)
    requires |outs| <= d && c < d && o + k * d + c < |s|
    ensures 0 <= k * d
    ensures ScatterChannels(s, o, d, outs)[o + k * d + c] ==
            if c < |outs| && k < |outs[c]| then outs[c][k] else s[o + k * d + c]
  {
    MulMono(0, k, d);
    if outs == [] {
    } else {
      var m := |outs| - 1;
      ScatterChannelsAt(s, o, d, outs[..m], k, c);
      ScatterAt(ScatterChannels(s, o, d, outs[..m]), o + m, d, outs[m], o + k * d + c);
      SlotOwner(k, c, m, d);
    }
  }

  // What precedes the frames is not touched.
  lemma {:induction false} ScatterChannelsBefore(s: seq<real>, o: nat, d: pos, outs: seq<seq<real>>, i: nat)
    requires i < o && i < |s|
    ensures ScatterChannels(s, o, d, outs)[i] == s[i]
  {
    if outs == [] {
    } else {
      var m := |outs| - 1;
      ScatterChannelsBefore(s, o, d, outs[..m], i);
      ScatterAt(ScatterChannels(s, o, d, outs[..m]), o + m, d, outs[m], i);
    }
  }
}
