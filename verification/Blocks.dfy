/** Moving and clearing stretches of a flat sample memory in place. */
module Blocks {

  // s with the n samples from src on copied to dst, as if read all at once.
  function Blit(s: seq<real>, dst: nat, src: nat, n: nat): (r: seq<real>)
    requires dst + n <= |s| && src + n <= |s|
    ensures |r| == |s|
  {
    s[..dst] + s[src..src + n] + s[dst + n..]
  }

  function Cleared(s: seq<real>, at: nat, n: nat): (r: seq<real>)
    requires at + n <= |s|
    ensures |r| == |s|
  {
    s[..at] + seq(n, _ => 0.0) + s[at + n..]
  }

  // Copying towards the front, lowest sample first.
  method MoveDown(a: array<real>, dst: nat, src: nat, n: nat)
    requires dst <= src && src + n <= a.Length
    modifies a
    ensures a[..] == Blit(old(a[..]), dst, src, n)
  {
    for j := 0 to n
      invariant a[..] == Blit(old(a[..]), dst, src, j)
    {
      BlitStep(old(a[..]), dst, src, j);
      hide Blit;
      a[dst + j] := a[src + j];
    }
  }

  // One more sample at the back of the destination; its source is still as it was.
  lemma BlitStep(s: seq<real>, dst: nat, src: nat, j: nat)
    requires dst <= src && src + j < |s|
    ensures Blit(s, dst, src, j)[src + j] == s[src + j]
    ensures Blit(s, dst, src, j + 1) == Blit(s, dst, src, j)[dst + j := s[src + j]]
  {
  }

  // Copying towards the back, highest sample first.
  method MoveUp(a: array<real>, dst: nat, src: nat, n: nat)
    requires src <= dst && dst + n <= a.Length
    modifies a
    ensures a[..] == Blit(old(a[..]), dst, src, n)
  {
    var j := n;
    while j > 0
      invariant 0 <= j <= n
      invariant a[..] == Blit(old(a[..]), dst + j, src + j, n - j)
    {
      j := j - 1;
      BlitStepBack(old(a[..]), dst + j, src + j, n - j - 1);
      a[dst + j] := a[src + j];
    }
  }

  lemma BlitStepBack(s: seq<real>, dst: nat, src: nat, n: nat)
    requires src <= dst && dst + 1 + n <= |s|
    ensures Blit(s, dst + 1, src + 1, n)[src] == s[src]
    ensures Blit(s, dst, src, n + 1) == Blit(s, dst + 1, src + 1, n)[dst := s[src]]
  {
  }

  method Clear(a: array<real>, at: nat, n: nat)
    requires at + n <= a.Length
    modifies a
    ensures a[..] == Cleared(old(a[..]), at, n)
  {
    for j := 0 to n
      invariant forall k :: 0 <= k < a.Length ==>
                  a[k] == if at <= k < at + j then 0.0 else old(a[k])
    {
      a[at + j] := 0.0;
    }
  }

  // Outside the destination nothing changes; inside it is the source as it was.
  lemma BlitSlice(s: seq<real>, dst: nat, src: nat, n: nat, lo: nat, hi: nat)
    requires dst + n <= |s| && src + n <= |s| && lo <= hi <= |s|
    ensures hi <= dst || dst + n <= lo ==> Blit(s, dst, src, n)[lo..hi] == s[lo..hi]
    ensures dst <= lo && hi <= dst + n ==> Blit(s, dst, src, n)[lo..hi] == s[lo - dst + src..hi - dst + src]
  {
    var r := Blit(s, dst, src, n);
    if hi <= dst || dst + n <= lo {
      assert forall k :: lo <= k < hi ==> r[k] == s[k];
    }
    if dst <= lo && hi <= dst + n {
      assert forall k :: lo <= k < hi ==> r[k] == s[k - dst + src];
    }
  }

  // Nothing outside the n samples from b on has changed.
  ghost predicate OnlyWithin(s: seq<real>, r: seq<real>, b: nat, n: nat) {
    && |r| == |s| && b + n <= |s|
    && r[..b] == s[..b]
    && r[b + n..] == s[b + n..]
  }

  // Any stretch outside is then as it was.
  lemma OutsideSame(s: seq<real>, r: seq<real>, b: nat, n: nat, lo: nat, hi: nat)
    requires OnlyWithin(s, r, b, n) && lo <= hi <= |s| && (hi <= b || b + n <= lo)
    ensures r[lo..hi] == s[lo..hi]
  {
    if hi <= b {
      assert forall k :: lo <= k < hi ==> r[k] == r[..b][k] && s[k] == s[..b][k];
    } else {
      assert forall k :: lo <= k < hi ==> r[k] == r[b + n..][k - b - n] && s[k] == s[b + n..][k - b - n];
    }
  }

  lemma SameSize(s: seq<real>, r: seq<real>, b: nat, n: nat)
    requires OnlyWithin(s, r, b, n)
    ensures |r| == |s|
  {
  }

  lemma OnlyWithinTwice(s: seq<real>, r: seq<real>, q: seq<real>, b: nat, n: nat)
    requires OnlyWithin(s, r, b, n) && OnlyWithin(r, q, b, n)
    ensures OnlyWithin(s, q, b, n)
  {
  }

  lemma BlitWithin(s: seq<real>, dst: nat, src: nat, m: nat, b: nat, n: nat)
    requires src + m <= |s| && b <= dst && dst + m <= b + n <= |s|
    ensures OnlyWithin(s, Blit(s, dst, src, m), b, n)
  {
  }

  lemma ClearedWithin(s: seq<real>, at: nat, m: nat, b: nat, n: nat)
    requires b <= at && at + m <= b + n <= |s|
    ensures OnlyWithin(s, Cleared(s, at, m), b, n)
  {
  }

  // Moving two neighbouring stretches down by the same distance, one after the other, moves
  // both: the second is still untouched when its turn comes.
  lemma SlideTwice(s: seq<real>, b: nat, gap: nat, n: nat, m: nat)
    requires b + gap + n + m <= |s|
    ensures var r := Blit(s, b, b + gap, n);
            var q := Blit(r, b + n, b + n + gap, m);
            && q[b..b + n + m] == s[b + gap..b + gap + n + m]
  {
    var r := Blit(s, b, b + gap, n);
    var q := Blit(r, b + n, b + n + gap, m);
    assert forall k :: b <= k < b + n ==> q[k] == r[k] == s[k + gap];
    assert forall k :: b + n <= k < b + n + m ==> q[k] == r[k + gap] == s[k + gap];
  }

  // s with v written over it from `at` on.
  function Written(s: seq<real>, at: nat, v: seq<real>): (r: seq<real>)
    requires at + |v| <= |s|
    ensures |r| == |s|
  {
    s[..at] + v + s[at + |v|..]
  }

  lemma WrittenNone(s: seq<real>, at: nat)
    requires at <= |s|
    ensures Written(s, at, []) == s
  {
  }

  lemma WrittenStep(s: seq<real>, at: nat, v: seq<real>, x: real)
    requires at + |v| < |s|
    ensures Written(s, at, v + [x]) == Written(s, at, v)[at + |v| := x]
  {
  }

  // New samples written behind n samples of history leave the history alone.
  lemma WrittenBehind(s: seq<real>, b: nat, n: nat, v: seq<real>, m: nat)
    requires n + |v| <= m && b + m <= |s|
    ensures Written(s, b + n, v)[b..b + n + |v|] == s[b..b + n] + v
    ensures OnlyWithin(s, Written(s, b + n, v), b, m)
  {
  }
}
