/** Where the bytes and blocks of a striped file are. */
module Striping {
  import opened Common

  const HALF_WORD: nat := 0x1_0000_0000
  const BSIZE: nat := 512

  /** `osts[i]` is the OST of stripe `i`; only the first `count` matter. */
  datatype Layout = Layout(count: nat, size: nat, osts: seq<nat>)

  ghost predicate Fits(l: Layout) {
    l.count < HALF_WORD && l.size < WORD && l.count <= |l.osts|
  }

  ghost predicate Listed(l: Layout, ost: nat) {
    exists i :: 0 <= i < l.count && i < |l.osts| && l.osts[i] == ost
  }

  /** The OST that holds byte `off`. */
  function OstOf(l: Layout, off: nat): (ost: nat)
    requires 0 < l.count <= |l.osts| && l.size > 0
  {
    l.osts[(off / l.size) % l.count]
  }

  ghost predicate HasByte(l: Layout, fsize: nat, ost: nat)
    requires 0 < l.count <= |l.osts| && l.size > 0
  {
    exists off: nat :: off < fsize && OstOf(l, off) == ost
  }

  /* ---- division ---- */

  lemma DivBounds(n: nat, d: nat)
    requires d > 0
    ensures n == n / d * d + n % d && n % d < d && n / d >= 0
  {
  }

  lemma BigMultiple(x: int, d: int)
    requires d > 0
    ensures x == 0 || x * d >= d || x * d <= -d
  {
    if x >= 1 {
      assert (x - 1) * d >= 0;
    } else if x <= -1 {
      assert (-x - 1) * d >= 0;
    }
  }

  lemma DivIs(n: nat, d: nat, q: nat, r: nat)
    requires d > 0 && n == q * d + r && r < d
    ensures n / d == q && n % d == r
  {
    DivBounds(n, d);
    var q', r' := n / d, n % d;
    assert (q - q') * d == r' - r;
    BigMultiple(q - q', d);
  }

  /** Number of stripe blocks that hold `n` bytes, the last one possibly in part. */
  function UpperDiv(n: nat, d: nat): (r: nat)
    requires d > 0
  {
    n / d + (if n % d != 0 then 1 else 0)
  }

  /** A byte below `n` is in a block below `UpperDiv(n, d)`, and the start of such a block is below `n`. */
  lemma BlockOfByte(n: nat, d: nat, i: nat)
    requires d > 0
    ensures i < UpperDiv(n, d) <==> i * d < n
  {
    DivBounds(n, d);
    var q := n / d;
    if i < q {
      LowerStripe(i + 1, q, d);
      assert (i + 1) * d == i * d + d;
    } else if i > q {
      LowerStripe(q + 1, i, d);
      assert (q + 1) * d == q * d + d;
    }
  }

  lemma FirstByte(l: Layout, i: nat)
    requires 0 < l.count <= |l.osts| && l.size > 0 && i < l.count
    ensures OstOf(l, i * l.size) == l.osts[i]
  {
    DivIs(i * l.size, l.size, i, 0);
    DivIs(i, l.count, 0, i);
  }

  /** A file has a byte on a stripe exactly when it reaches the start of that stripe. */
  lemma ByteOnStripe(l: Layout, fsize: nat, ost: nat)
    requires 0 < l.count <= |l.osts| && l.size > 0
    ensures HasByte(l, fsize, ost) <==> exists i :: 0 <= i < l.count && l.osts[i] == ost && i * l.size < fsize
  {
    if off: nat :| off < fsize && OstOf(l, off) == ost {
      var q := off / l.size;
      var i := q % l.count;
      DivBounds(off, l.size);
      DivBounds(q, l.count);
      assert i <= q;
      assert (q - i) * l.size >= 0;
      assert l.osts[i] == ost && i * l.size < fsize;
    }
    if i :| 0 <= i < l.count && l.osts[i] == ost && i * l.size < fsize {
      FirstByte(l, i);
    }
  }

  lemma LowerStripe(i: nat, j: nat, size: nat)
    requires i <= j
    ensures i * size <= j * size
  {
    assert (j - i) * size >= 0;
  }

  /** The bytes before the last stripe, as the program computes them: a 32-bit count times a 64-bit size. */
  function Span(l: Layout): (n: nat) {
    (l.count - 1) % HALF_WORD * l.size % WORD
  }

  lemma SpanIs(l: Layout)
    requires Fits(l) && l.count > 0 && (l.count - 1) * l.size < WORD
    ensures Span(l) == (l.count - 1) * l.size
  {
  }

  /** A file that reaches the last stripe has a byte on every listed OST. */
  lemma LongFile(l: Layout, fsize: nat, ost: nat)
    requires Fits(l) && l.count > 0 && l.size > 0 && fsize > (l.count - 1) * l.size && Listed(l, ost)
    ensures HasByte(l, fsize, ost)
  {
    var i :| 0 <= i < l.count && i < |l.osts| && l.osts[i] == ost;
    LowerStripe(i, l.count - 1, l.size);
    ByteOnStripe(l, fsize, ost);
  }

  /** A shorter file has a byte on the OSTs of its first blocks. */
  lemma ShortFile(l: Layout, fsize: nat, ost: nat)
    requires Fits(l) && l.count > 0 && l.size > 0 && fsize <= (l.count - 1) * l.size
    ensures UpperDiv(fsize, l.size) < l.count && UpperDiv(fsize, l.size) % HALF_WORD == UpperDiv(fsize, l.size)
    ensures HasByte(l, fsize, ost) <==> exists i :: 0 <= i < UpperDiv(fsize, l.size) && l.osts[i] == ost
  {
    FewBlocks(l, fsize);
    forall i: nat ensures i < UpperDiv(fsize, l.size) <==> i * l.size < fsize {
      BlockOfByte(fsize, l.size, i);
    }
    ByteOnStripe(l, fsize, ost);
    if HasByte(l, fsize, ost) {
      var i :| 0 <= i < l.count && l.osts[i] == ost && i * l.size < fsize;
      assert i < UpperDiv(fsize, l.size);
    }
    if i :| 0 <= i < UpperDiv(fsize, l.size) && l.osts[i] == ost {
      assert i * l.size < fsize;
    }
  }

  /** The answer is exact for a listed OST; for another one it says whether the file reaches the last stripe. */
  ghost predicate RightAnswer(fsize: nat, ost: nat, l: Layout, r: bool) {
    && (l.count > 0 && l.size > 0 && (l.count - 1) * l.size < WORD && l.count <= |l.osts| && Listed(l, ost) ==>
          (r <==> HasByte(l, fsize, ost)))
    && (l.count > 0 && (l.count - 1) * l.size < WORD && !Listed(l, ost) ==> (r <==> fsize > (l.count - 1) * l.size))
  }

  lemma LongAnswer(fsize: nat, ost: nat, l: Layout)
    requires Fits(l) && fsize > Span(l)
    ensures RightAnswer(fsize, ost, l, true)
  {
    if l.count > 0 && (l.count - 1) * l.size < WORD {
      SpanIs(l);
      if l.size > 0 && Listed(l, ost) {
        LongFile(l, fsize, ost);
      }
    }
  }

  lemma ShortAnswer(fsize: nat, ost: nat, l: Layout, r: bool)
    requires Fits(l) && 0 < fsize <= Span(l) && l.size > 0
    requires r <==> exists i :: 0 <= i < l.count && i < UpperDiv(fsize, l.size) % HALF_WORD && l.osts[i] == ost
    ensures RightAnswer(fsize, ost, l, r)
  {
    if l.count > 0 && (l.count - 1) * l.size < WORD {
      SpanIs(l);
      ShortFile(l, fsize, ost);
    }
  }

  /** Does a file of `fsize` bytes have data on the given OST? */
  method DataOnOST(fsize: nat, ost: nat, l: Layout) returns (r: bool)
    requires Fits(l) && fsize < WORD
    ensures RightAnswer(fsize, ost, l, r)
  {
    if fsize == 0 {
      return false;
    }
    if fsize > Span(l) {
      LongAnswer(fsize, ost, l);
      return true;
    }
    if l.size == 0 {
      return false;
    }
    var blocks := UpperDiv(fsize, l.size) % HALF_WORD;
    var i := 0;
    while i < l.count && i < blocks
      invariant 0 <= i <= l.count
      invariant forall j :: 0 <= j < i ==> l.osts[j] != ost
    {
      if l.osts[i] == ost {
        ShortAnswer(fsize, ost, l, true);
        return true;
      }
      i := i + 1;
    }
    ShortAnswer(fsize, ost, l, false);
    return false;
  }

  /** A file that does not reach the last stripe has fewer blocks than stripes. */
  lemma FewBlocks(l: Layout, fsize: nat)
    requires Fits(l) && l.count > 0 && l.size > 0 && fsize <= (l.count - 1) * l.size
    ensures UpperDiv(fsize, l.size) < l.count && UpperDiv(fsize, l.size) % HALF_WORD == UpperDiv(fsize, l.size)
  {
    BlockOfByte(fsize, l.size, l.count - 1);
  }

  /* ---- blocks ---- */

  /** How many of the first `full` stripes, dealt round-robin over `count` OSTs, go to stripe index `k`. */
  function Dealt(full: nat, count: nat, k: nat): (n: nat)
    requires count > 0
  {
    if full == 0 then 0 else Dealt(full - 1, count, k) + (if (full - 1) % count == k then 1 else 0)
  }

  /** The blocks on stripe index `k`: its full stripes of `unit` blocks, and the rest if it comes next. */
  function Share(full: nat, rest: nat, count: nat, unit: nat, k: nat): (n: nat)
    requires count > 0
  {
    Dealt(full, count, k) * unit + (if full % count == k then rest else 0)
  }

  /** How many of the first `n` blocks are on stripe index `k`, block by block, with `unit` blocks to a stripe. */
  function BlocksOn(n: nat, unit: nat, count: nat, k: nat): (r: nat)
    requires unit > 0 && count > 0
  {
    if n == 0 then 0 else BlocksOn(n - 1, unit, count, k) + (if (n - 1) / unit % count == k then 1 else 0)
  }

  lemma {:induction false} BlocksByStripe(full: nat, rest: nat, unit: nat, count: nat, k: nat)
    requires unit > 0 && count > 0 && rest <= unit
    ensures BlocksOn(full * unit + rest, unit, count, k) == Share(full, rest, count, unit, k)
    decreases full, rest
  {
    if rest > 0 {
      BlocksByStripe(full, rest - 1, unit, count, k);
      DivIs(full * unit + rest - 1, unit, full, rest - 1);
    } else if full > 0 {
      BlocksByStripe(full - 1, unit, unit, count, k);
      OneStripeMore(full, unit, if (full - 1) % count == k then 1 else 0, Dealt(full - 1, count, k));
    }
  }

  lemma OneStripeMore(full: nat, unit: nat, one: nat, dealt: nat)
    requires full > 0
    ensures (full - 1) * unit + unit == full * unit && dealt * unit + one * unit == (dealt + one) * unit
  {
  }

  /** The share of a stripe is the number of its blocks, and block `b` is on the OST that holds its first byte. */
  lemma ShareIsCounted(blocks: nat, l: Layout, full: nat, unit: nat, rest: nat, k: nat)
    requires Divided(blocks, l.size, full, unit, rest) && 0 < l.count <= |l.osts| && k < l.count
    ensures Share(full, rest, l.count, unit, k) == BlocksOn(blocks, unit, l.count, k)
    ensures forall b: nat :: OstOf(l, b * BSIZE) == l.osts[b / unit % l.count]
  {
    BlocksByStripe(full, rest, unit, l.count, k);
    forall b: nat ensures OstOf(l, b * BSIZE) == l.osts[b / unit % l.count] {
      DivBounds(b, unit);
      Scaled(b, unit, b / unit, b % unit);
      DivIs(b * BSIZE, l.size, b / unit, b % unit * BSIZE);
    }
  }

  lemma Scaled(b: nat, unit: nat, q: nat, r: nat)
    requires b == q * unit + r && r < unit
    ensures b * BSIZE == q * (unit * BSIZE) + r * BSIZE && r * BSIZE < unit * BSIZE
  {
    assert q * unit * BSIZE == q * (unit * BSIZE);
  }

  lemma NextMod(n: nat, c: nat)
    requires c > 0
    ensures n % c + 1 == c ==> (n + 1) / c == n / c + 1 && (n + 1) % c == 0
    ensures n % c + 1 < c ==> (n + 1) / c == n / c && (n + 1) % c == n % c + 1
  {
    DivBounds(n, c);
    if n % c + 1 == c {
      assert (n / c + 1) * c == n / c * c + c;
      DivIs(n + 1, c, n / c + 1, 0);
    } else {
      DivIs(n + 1, c, n / c, n % c + 1);
    }
  }

  /** The count in closed form. */
  lemma {:induction false} DealtIs(full: nat, count: nat, k: nat)
    requires k < count
    ensures full < k ==> Dealt(full, count, k) == 0 && full % count == full
    ensures full >= k ==> Dealt(full, count, k) == UpperDiv(full - k, count)
    ensures full >= k ==> (full % count == k <==> (full - k) % count == 0)
  {
    if full < k {
      DivIs(full, count, 0, full);
      DealtNone(full, count, k);
    } else if full == k {
      DivIs(full, count, 0, full);
      DivIs(0, count, 0, 0);
      DealtNone(full, count, k);
    } else {
      DealtIs(full - 1, count, k);
      NextMod(full - 1 - k, count);
      ModShift(full, count, k);
      DivBounds(full - 1 - k, count);
    }
  }

  lemma {:induction false} DealtNone(full: nat, count: nat, k: nat)
    requires full <= k < count
    ensures Dealt(full, count, k) == 0
  {
    if full > 0 {
      DivIs(full - 1, count, 0, full - 1);
      DealtNone(full - 1, count, k);
    }
  }

  lemma ModShift(n: nat, c: nat, k: nat)
    requires k < c && k <= n
    ensures n % c == k <==> (n - k) % c == 0
  {
    DivBounds(n, c);
    DivBounds(n - k, c);
    if n % c == k {
      DivIs(n - k, c, n / c, 0);
    }
    if (n - k) % c == 0 {
      DivIs(n, c, (n - k) / c, k);
    }
  }

  /** The program's arithmetic on 64-bit words, with `full` full stripes and `rest` blocks left. */
  function BlocksCode(full: nat, rest: nat, k: nat, count: nat, unit: nat): (r: nat)
    requires count > 0
  {
    var diff := (full - k) % WORD;
    (UpperDiv(diff, count) * unit + (if diff % count == 0 then rest else 0)) % WORD
  }

  /** The first stripe on the given OST. */
  ghost predicate FirstStripe(l: Layout, ost: nat, k: nat) {
    k < l.count && k < |l.osts| && l.osts[k] == ost && forall j :: 0 <= j < k ==> l.osts[j] != ost
  }

  /** A file of `blocks` blocks is `full` stripes of `unit` blocks and `rest` blocks more. */
  ghost predicate Divided(blocks: nat, size: nat, full: nat, unit: nat, rest: nat) {
    size == unit * BSIZE && rest < unit && blocks == full * unit + rest
  }

  /** The first position of an OST in a list, or -1. */
  function IndexOf(osts: seq<nat>, ost: nat): (i: int)
    ensures -1 <= i < |osts|
    ensures i >= 0 ==> osts[i] == ost && forall j :: 0 <= j < i ==> osts[j] != ost
    ensures i < 0 ==> forall j :: 0 <= j < |osts| ==> osts[j] != ost
  {
    if osts == [] then -1
    else if osts[0] == ost then 0
    else
      var i := IndexOf(osts[1..], ost);
      assert forall j :: 0 < j < |osts| ==> osts[j] == osts[1..][j - 1];
      if i < 0 then -1 else i + 1
  }

  method StripeIndex(ost: nat, l: Layout) returns (index: int)
    requires Fits(l)
    ensures index == IndexOf(l.osts[..l.count], ost)
  {
    var i := 0;
    while i < l.count
      invariant 0 <= i <= l.count
      invariant forall j :: 0 <= j < i ==> l.osts[j] != ost
    {
      if l.osts[i] == ost {
        return i;
      }
      i := i + 1;
    }
    return -1;
  }

  /** The program's answer, with the size in bytes taken as a 64-bit word. */
  function Answer(blocks: nat, ost: nat, l: Layout): (r: nat)
    requires l.count <= |l.osts|
  {
    var k := IndexOf(l.osts[..l.count], ost);
    if blocks == 0 || l.size == 0 || l.size % BSIZE != 0 || k < 0 then 0
    else
      var bytes := blocks * BSIZE % WORD;
      BlocksCode(bytes / l.size, UpperDiv(bytes % l.size, BSIZE), k, l.count, l.size / BSIZE)
  }

  /**
   * The blocks of a file on the given OST: none when the OST is not listed, and, for a size that fits a
   * word, exactly the share of its stripe as soon as the full stripes reach it.
   */
  method BlocksOnOST(blocks: nat, ost: nat, l: Layout) returns (r: nat)
    requires Fits(l)
    ensures r == Answer(blocks, ost, l)
    ensures !Listed(l, ost) || blocks == 0 || l.size == 0 || l.size % BSIZE != 0 ==> r == 0
    ensures ExactOnceReached(blocks, ost, l, r)
  {
    r := AnswerFor(blocks, ost, l);
    AnswerExact(blocks, ost, l);
  }

  method AnswerFor(blocks: nat, ost: nat, l: Layout) returns (r: nat)
    requires Fits(l)
    ensures r == Answer(blocks, ost, l)
  {
    var index := StripeIndex(ost, l);
    if blocks == 0 || l.size == 0 || l.size % BSIZE != 0 || index == -1 {
      return 0;
    }
    var bytes := blocks * BSIZE % WORD;
    r := BlocksOfStripe(bytes / l.size, bytes % l.size, index, l.count, l.size);
  }

  /** A size that fits a word gives the share of the stripe once the full stripes reach it. */
  ghost predicate ExactOnceReached(blocks: nat, ost: nat, l: Layout, r: nat) {
    forall k, full, unit, rest ::
      FirstStripe(l, ost, k) && Divided(blocks, l.size, full, unit, rest) && blocks * BSIZE < WORD && full >= k ==>
        r == Share(full, rest, l.count, unit, k)
  }

  lemma AnswerExact(blocks: nat, ost: nat, l: Layout)
    requires Fits(l)
    ensures ExactOnceReached(blocks, ost, l, Answer(blocks, ost, l))
    ensures !Listed(l, ost) ==> Answer(blocks, ost, l) == 0
  {
    forall k, full, unit, rest
      | FirstStripe(l, ost, k) && Divided(blocks, l.size, full, unit, rest) && blocks * BSIZE < WORD && full >= k
      ensures Answer(blocks, ost, l) == Share(full, rest, l.count, unit, k)
    {
      AnswerIsShare(blocks, ost, l, k, full, unit, rest);
    }
  }

  /** For a size that fits a word, the answer in terms of full stripes and rest. */
  lemma AnswerIs(blocks: nat, ost: nat, l: Layout, k: nat, full: nat, unit: nat, rest: nat)
    requires Fits(l) && FirstStripe(l, ost, k) && Divided(blocks, l.size, full, unit, rest) && 0 < blocks && blocks * BSIZE < WORD
    ensures Answer(blocks, ost, l) == BlocksCode(full, rest, k, l.count, unit)
  {
    assert l.osts[..l.count][k] == ost;
    SmallMod(blocks * BSIZE);
    DividedOnce(blocks, l.size, full, unit, rest);
  }

  lemma AnswerIsShare(blocks: nat, ost: nat, l: Layout, k: nat, full: nat, unit: nat, rest: nat)
    requires Fits(l) && FirstStripe(l, ost, k) && Divided(blocks, l.size, full, unit, rest) && blocks * BSIZE < WORD && full >= k
    ensures Answer(blocks, ost, l) == Share(full, rest, l.count, unit, k)
  {
    FewerStripes(blocks, l.size, full, unit, rest);
    if blocks == 0 {
      ShareAtMost(full, rest, l.count, unit, k);
    } else {
      AnswerIs(blocks, ost, l, k, full, unit, rest);
      CodeIsShare(full, rest, k, l.count, unit);
    }
  }

  /** There is one way to divide a file. */
  lemma DividedOnce(blocks: nat, size: nat, full: nat, unit: nat, rest: nat)
    requires Divided(blocks, size, full, unit, rest)
    ensures size % BSIZE == 0 && unit == size / BSIZE && full == blocks * BSIZE / size
    ensures rest == UpperDiv(blocks * BSIZE % size, BSIZE)
  {
    DivIs(size, BSIZE, unit, 0);
    assert blocks * BSIZE == full * (unit * BSIZE) + rest * BSIZE;
    DivIs(blocks * BSIZE, size, full, rest * BSIZE);
  }

  lemma FewerStripes(blocks: nat, size: nat, full: nat, unit: nat, rest: nat)
    requires Divided(blocks, size, full, unit, rest)
    ensures full <= blocks
  {
    LowerStripe(1, unit, full);
    assert full == 1 * full && unit * full == full * unit;
  }

  method BlocksOfStripe(full: nat, lastSize: nat, index: nat, count: nat, size: nat) returns (r: nat)
    requires count > 0
    ensures r == BlocksCode(full, UpperDiv(lastSize, BSIZE), index, count, size / BSIZE)
  {
    var diff := (full - index) % WORD;
    var matchFull := diff / count;
    var extra := 0;
    if diff % count > 0 {
      matchFull := matchFull + 1;
    } else {
      extra := UpperDiv(lastSize, BSIZE);
    }
    r := (matchFull * (size / BSIZE) + extra) % WORD;
  }

  lemma CodeIsShare(full: nat, rest: nat, k: nat, count: nat, unit: nat)
    requires k < count && k <= full < WORD && full * unit + rest < WORD
    ensures BlocksCode(full, rest, k, count, unit) == Share(full, rest, count, unit, k)
  {
    var diff := full - k;
    SmallMod(diff);
    DealtIs(full, count, k);
    ShareAtMost(full, rest, count, unit, k);
    var s := Share(full, rest, count, unit, k);
    assert BlocksCode(full, rest, k, count, unit) == s % WORD;
    SmallMod(s);
  }

  lemma SmallMod(n: nat)
    requires n < WORD
    ensures n % WORD == n
  {
  }

  /** Sums over the first `n` stripe indices. */
  function SumDealt(full: nat, count: nat, n: nat): (s: nat)
    requires count > 0
  {
    if n == 0 then 0 else SumDealt(full, count, n - 1) + Dealt(full, count, n - 1)
  }

  function SumShares(full: nat, rest: nat, count: nat, unit: nat, n: nat): (s: nat)
    requires count > 0
  {
    if n == 0 then 0 else SumShares(full, rest, count, unit, n - 1) + Share(full, rest, count, unit, n - 1)
  }

  lemma {:induction false} SumDealtNext(full: nat, count: nat, n: nat)
    requires count > 0
    ensures SumDealt(full + 1, count, n) == SumDealt(full, count, n) + (if full % count < n then 1 else 0)
  {
    if n > 0 {
      SumDealtNext(full, count, n - 1);
    } else {
      DivBounds(full, count);
    }
  }

  /** Every full stripe is dealt to exactly one OST. */
  lemma {:induction false} SumDealtAll(full: nat, count: nat)
    requires count > 0
    ensures SumDealt(full, count, count) == full
  {
    if full == 0 {
      SumDealtZero(count, count);
    } else {
      SumDealtAll(full - 1, count);
      SumDealtNext(full - 1, count, count);
      DivBounds(full - 1, count);
    }
  }

  lemma {:induction false} SumDealtZero(count: nat, n: nat)
    requires count > 0
    ensures SumDealt(0, count, n) == 0
  {
    if n > 0 {
      SumDealtZero(count, n - 1);
    }
  }

  lemma {:induction false} SumSharesIs(full: nat, rest: nat, count: nat, unit: nat, n: nat)
    requires count > 0
    ensures SumShares(full, rest, count, unit, n) == SumDealt(full, count, n) * unit + (if full % count < n then rest else 0)
  {
    if n == 0 {
      DivBounds(full, count);
    } else {
      SumSharesIs(full, rest, count, unit, n - 1);
      Distribute(SumDealt(full, count, n - 1), Dealt(full, count, n - 1), unit);
    }
  }

  lemma Distribute(a: nat, b: nat, c: nat)
    ensures (a + b) * c == a * c + b * c
  {
  }

  /** Over all the stripes the shares add up to the file. */
  lemma SharesAddUp(full: nat, rest: nat, count: nat, unit: nat)
    requires count > 0
    ensures SumShares(full, rest, count, unit, count) == full * unit + rest
  {
    SumSharesIs(full, rest, count, unit, count);
    SumDealtAll(full, count);
    DivBounds(full, count);
  }

  lemma {:induction false} ShareInSum(full: nat, rest: nat, count: nat, unit: nat, k: nat, n: nat)
    requires count > 0 && k < n
    ensures Share(full, rest, count, unit, k) <= SumShares(full, rest, count, unit, n)
    decreases n
  {
    if k < n - 1 {
      ShareInSum(full, rest, count, unit, k, n - 1);
    }
  }

  lemma ShareAtMost(full: nat, rest: nat, count: nat, unit: nat, k: nat)
    requires k < count
    ensures Share(full, rest, count, unit, k) <= full * unit + rest
  {
    SharesAddUp(full, rest, count, unit);
    ShareInSum(full, rest, count, unit, k, count);
  }

  /** The answers for the first `n` OSTs of a layout, added up. */
  function SumAnswers(blocks: nat, l: Layout, n: nat): (s: nat)
    requires n <= l.count <= |l.osts|
  {
    if n == 0 then 0 else SumAnswers(blocks, l, n - 1) + Answer(blocks, l.osts[n - 1], l)
  }

  lemma {:induction false} SumAnswersIs(blocks: nat, l: Layout, full: nat, unit: nat, rest: nat, n: nat)
    requires Fits(l) && n <= l.count && Distinct(l.osts[..l.count]) && full >= l.count - 1
    requires Divided(blocks, l.size, full, unit, rest) && blocks * BSIZE < WORD
    ensures l.count > 0 ==> SumAnswers(blocks, l, n) == SumShares(full, rest, l.count, unit, n)
  {
    if n > 0 {
      SumAnswersIs(blocks, l, full, unit, rest, n - 1);
      var used := l.osts[..l.count];
      assert forall j :: 0 <= j < n - 1 ==> used[j] == l.osts[j] != l.osts[n - 1] == used[n - 1];
      assert FirstStripe(l, l.osts[n - 1], n - 1);
      AnswerIsShare(blocks, l.osts[n - 1], l, n - 1, full, unit, rest);
    }
  }

  /**
   * On distinct OSTs that are all reached by a full stripe, what is answered for each of them adds up to
   * the blocks of the file.
   */
  lemma BlocksAddUp(blocks: nat, l: Layout, full: nat, unit: nat, rest: nat)
    requires Fits(l) && l.count > 0 && Distinct(l.osts[..l.count]) && full >= l.count - 1
    requires Divided(blocks, l.size, full, unit, rest) && blocks * BSIZE < WORD
    ensures SumAnswers(blocks, l, l.count) == blocks
  {
    SumAnswersIs(blocks, l, full, unit, rest, l.count);
    SharesAddUp(full, rest, l.count, unit);
  }

  /* ---- before the full stripes reach an OST ---- */

  /** Nothing of the file is on a stripe that it does not reach. */
  lemma ShareNone(full: nat, rest: nat, count: nat, unit: nat, k: nat)
    requires full < k < count
    ensures Share(full, rest, count, unit, k) == 0
  {
    DealtIs(full, count, k);
  }

  /** Rounding a quotient up and multiplying back. */
  lemma UpperTimes(n: nat, c: nat) returns (s: nat)
    requires c > 0
    ensures UpperDiv(n, c) * c == n + s && s < c && (s == 0 <==> n % c == 0)
  {
    DivBounds(n, c);
    s := if n % c == 0 then 0 else c - n % c;
    if n % c != 0 {
      Distribute(n / c, 1, c);
    }
  }

  lemma WordTimes(v: nat)
    ensures v % WORD == 0 <==> v == v / WORD * WORD
  {
    DivBounds(v, WORD);
  }

  /** A number of words that differs from another by less than a word is that number. */
  lemma SameWords(x: int, r: int)
    requires x * WORD == r && 0 < r + WORD && r < WORD
    ensures x == 0 && r == 0
  {
    BigMultiple(x, WORD);
  }

  lemma SmallProduct(x: int, unit: nat, count: nat)
    requires 0 < count + x && x < count && unit > 0
    ensures 0 < count * unit + x * unit && x * unit < count * unit
  {
    assert (count - x) * unit > 0 && (count + x) * unit > 0;
  }

  /** The answer times the stripe count, in words and a residue. */
  lemma TimesCount(m: nat, count: nat, unit: nat, d: nat, s: nat, e: nat)
    requires m * count == WORD - d + s
    ensures (m * unit + e) * count == WORD * unit + (s - d) * unit + count * e
  {
    assert (m * unit + e) * count == (m * count) * unit + count * e;
  }

  lemma WrappedOnlyIf(m: nat, count: nat, unit: nat, d: nat, s: nat)
    requires 0 < d < count && 0 < s < count && m * count == WORD - d + s && 0 < unit && count * unit < WORD
    requires m * unit % WORD == 0
    ensures unit % count == 0 && WORD % count == 0
  {
    var v := m * unit;
    WordTimes(v);
    var t := v / WORD;
    TimesCount(m, count, unit, d, s, 0);
    SmallProduct(s - d, unit, count);
    assert (t * count - unit) * WORD == (s - d) * unit by {
      assert t * WORD * count == t * count * WORD;
    }
    SameWords(t * count - unit, (s - d) * unit);
    assert s == d;
    DivIs(unit, count, t, 0);
    DivIs(WORD, count, m, 0);
  }

  /** The wrapped difference is not a multiple of the count: the rest of the file does not come in. */
  lemma WrappedInside(m: nat, count: nat, unit: nat, d: nat, s: nat)
    requires 0 < d < count && 0 < s < count && m * count == WORD - d + s && 0 < unit && count * unit < WORD
    ensures m * unit % WORD == 0 <==> unit % count == 0 && WORD % count == 0
  {
    if m * unit % WORD == 0 {
      WrappedOnlyIf(m, count, unit, d, s);
    }
    if unit % count == 0 && WORD % count == 0 {
      var q := WORD / count;
      DivBounds(WORD, count);
      assert (m - q) * count == s - d;
      BigMultiple(m - q, count);
      MultipleOfWord(q, count, unit);
    }
  }

  /** The wrapped difference is a multiple of the count: the rest of the file comes in. */
  lemma WrappedAtEdge(m: nat, count: nat, unit: nat, d: nat, rest: nat)
    requires 0 < d < count && m * count == WORD - d && rest < unit && count * unit < WORD
    ensures (m * unit + rest) % WORD == 0 <==> unit % count == 0 && d * (unit / count) == rest
  {
    var v := m * unit + rest;
    WordTimes(v);
    if v % WORD == 0 {
      var t := v / WORD;
      TimesCount(m, count, unit, d, 0, rest);
      EdgeResidue(count, unit, d, rest);
      assert (t * count - unit) * WORD == count * rest - d * unit by {
        assert t * WORD * count == t * count * WORD;
      }
      SameWords(t * count - unit, count * rest - d * unit);
      DivIs(unit, count, t, 0);
      assert count * rest == d * (t * count) == count * (d * t);
      CancelFactor(count, rest, d * t);
    }
    if unit % count == 0 && d * (unit / count) == rest {
      var u := unit / count;
      DivBounds(unit, count);
      assert m * unit == (m * count) * u;
      assert v == (WORD - d) * u + d * u == WORD * u;
      DivIs(v, WORD, u, 0);
    }
  }

  lemma EdgeResidue(count: nat, unit: nat, d: nat, rest: nat)
    requires d < count && rest < unit && count * unit < WORD
    ensures 0 < WORD + count * rest - d * unit && count * rest - d * unit < WORD
  {
    assert (count - d) * unit >= 0 && d * unit >= 0;
    assert count * (unit - rest) >= 0 && count * rest >= 0;
  }

  lemma CancelFactor(c: nat, a: nat, b: nat)
    requires c > 0 && c * a == c * b
    ensures a == b
  {
    assert c * (a - b) == 0;
  }

  /**
   * Before the full stripes reach an OST the answer is right exactly when the stripe count divides the
   * stripe size in blocks and either divides the word too, or the wrapped difference, with a rest of
   * just the right size. This is for every stripe count.
   */
  lemma WrappedCode(full: nat, rest: nat, k: nat, count: nat, unit: nat)
    requires full < k < count && rest < unit && count * unit < WORD
    ensures var d := k - full;
      BlocksCode(full, rest, k, count, unit) == Share(full, rest, count, unit, k)
      <==> unit % count == 0 && (WORD % count == 0 || ((WORD - d) % count == 0 && d * (unit / count) == rest))
  {
    var d := k - full;
    ShareNone(full, rest, count, unit, k);
    LowerStripe(1, unit, count);
    assert count <= count * unit;
    var diff := WORD - d;
    assert (full - k) % WORD == diff;
    var m := UpperDiv(diff, count);
    var s := UpperTimes(diff, count);
    if s > 0 {
      WrappedInside(m, count, unit, d, s);
    } else {
      WrappedAtEdge(m, count, unit, d, rest);
      NotBoth(count, d);
    }
  }

  lemma NotBoth(count: nat, d: nat)
    requires 0 < d < count && d <= WORD && (WORD - d) % count == 0
    ensures WORD % count != 0
  {
    DivBounds(WORD - d, count);
    DivIs(WORD, count, (WORD - d) / count, d);
  }

  lemma MultipleOfWord(q: nat, count: nat, unit: nat)
    requires q > 0 && count > 0 && q * count == WORD
    ensures q * unit % WORD == 0 <==> unit % count == 0
  {
    var a, b := unit / count, unit % count;
    DivBounds(unit, count);
    assert q * unit == a * WORD + q * b by {
      assert q * unit == q * (a * count + b) == a * (q * count) + q * b;
    }
    LowerStripe(b + 1, count, q);
    assert (b + 1) * q == b * q + q;
    DivIs(q * unit, WORD, a, q * b);
    if b > 0 {
      LowerStripe(1, b, q);
    }
  }

  /** One block on three OSTs of one block each: the third OST is said to hold a third of the word. */
  lemma WrappedExample()
    ensures BlocksCode(1, 0, 2, 3, 1) == WORD / 3
    ensures Share(1, 0, 3, 1, 2) == 0
  {
    ShareNone(1, 0, 3, 1, 2);
  }
}
