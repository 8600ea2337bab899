/** The temperature filter of the heat-recovery unit: the median of five samples, found by an
    in-place bubble sort, averaged over 64 medians in a 16-bit sum.
  */
module RekuFilter {
  import opened Wrappers

  const MEDBUFSIZE := 5
  const AVGCOUNT := 64
  const ADC_MAX := 1023

  type Word = w: int | 0 <= w < 0x1_0000

  // ---------- sorting ----------

  ghost predicate Sorted(s: seq<Word>) { forall i, j :: 0 <= i < j < |s| ==> s[i] <= s[j] }

  function Insert(x: Word, s: seq<Word>): seq<Word> {
    if s == [] || x <= s[0] then [x] + s else [s[0]] + Insert(x, s[1..])
  }

  function Sort(s: seq<Word>): seq<Word> {
    if s == [] then [] else Insert(s[0], Sort(s[1..]))
  }

  lemma {:induction false} InsertPermutes(x: Word, s: seq<Word>)
    ensures multiset(Insert(x, s)) == multiset(s) + multiset{x}
  {
    if s != [] && x > s[0] {
      InsertPermutes(x, s[1..]);
      assert s == [s[0]] + s[1..];
    }
  }

  lemma {:induction false} InsertSorts(x: Word, s: seq<Word>)
    requires Sorted(s)
    ensures Sorted(Insert(x, s)) && forall y :: y in Insert(x, s) <==> y == x || y in s
  {
    if s != [] && x > s[0] {
      InsertSorts(x, s[1..]);
      var r := Insert(x, s[1..]);
      assert s == [s[0]] + s[1..];
      forall j | 0 <= j < |r| ensures s[0] <= r[j] {
        assert r[j] in r;
      }
      hide Insert;
    }
  }

  lemma {:induction false} SortOrders(s: seq<Word>)
    ensures Sorted(Sort(s)) && forall y :: y in Sort(s) <==> y in s
  {
    if s != [] {
      SortOrders(s[1..]);
      InsertSorts(s[0], Sort(s[1..]));
      assert s == [s[0]] + s[1..];
      hide Insert;
    }
  }

  lemma {:induction false} SortPermutes(s: seq<Word>)
    ensures multiset(Sort(s)) == multiset(s)
  {
    if s != [] {
      SortPermutes(s[1..]);
      InsertPermutes(s[0], Sort(s[1..]));
      assert s == [s[0]] + s[1..];
      hide Insert;
    }
  }

  /** Sort gives a sorted permutation. */
  lemma SortSorts(s: seq<Word>)
    ensures Sorted(Sort(s)) && multiset(Sort(s)) == multiset(s)
  {
    SortOrders(s);
    SortPermutes(s);
    hide *;
  }

  lemma {:induction false} SortedStays(s: seq<Word>)
    requires Sorted(s)
    ensures Sort(s) == s
  {
    if s != [] {
      SortedStays(s[1..]);
      assert s == [s[0]] + s[1..];
    }
  }

  lemma {:induction false} InsertCommutes(x: Word, y: Word, s: seq<Word>)
    ensures Insert(x, Insert(y, s)) == Insert(y, Insert(x, s))
  {
    if s != [] && x > s[0] && y > s[0] {
      InsertCommutes(x, y, s[1..]);
    }
  }

  function Swapped(s: seq<Word>, j: nat): (r: seq<Word>)
    requires j + 1 < |s|
    ensures |r| == |s|
  {
    s[j := s[j + 1]][j + 1 := s[j]]
  }

  /** Exchanging neighbours does not change what sorting gives. */
  lemma {:induction false} SwapSorts(s: seq<Word>, j: nat)
    requires j + 1 < |s|
    ensures Sort(Swapped(s, j)) == Sort(s)
    decreases j
  {
    var r := Swapped(s, j);
    if j == 0 {
      InsertCommutes(s[0], s[1], Sort(s[2..]));
      assert s[1..][1..] == s[2..] == r[1..][1..];
    } else {
      SwapSorts(s[1..], j - 1);
      assert r[1..] == Swapped(s[1..], j - 1);
    }
  }

  /** The first j + 1 values have their largest last. */
  ghost predicate Bubbled(s: seq<Word>, j: int)
    requires 0 <= j < |s|
  {
    forall k :: 0 <= k < j ==> s[k] <= s[j]
  }

  /** The last values from k on are in place: sorted, and no smaller than any before. */
  ghost predicate Settled(s: seq<Word>, k: int)
    requires 0 <= k <= |s|
  {
    forall i, j :: 0 <= i < j < |s| && k <= j ==> s[i] <= s[j]
  }

  /** One pass over the first n - i values. */
  method Pass(arr: array<Word>, i: nat) returns (swapped: bool)
    requires i < arr.Length && Settled(arr[..], arr.Length - i)
    modifies arr
    ensures Sort(arr[..]) == Sort(old(arr[..]))
    ensures Settled(arr[..], arr.Length - i - 1)
    ensures !swapped ==> Sorted(arr[..])
  {
    hide Sort;
    var n := arr.Length;
    swapped := false;
    ghost var before := arr[..];
    for j := 0 to n - i - 1
      invariant Sort(arr[..]) == Sort(before)
      invariant Settled(arr[..], n - i) && Bubbled(arr[..], j)
      invariant !swapped ==> forall k :: 0 <= k < j ==> arr[k] <= arr[k + 1]
    {
      if arr[j] > arr[j + 1] {
        SwapSettled(arr[..], n - i, j);
        SwapSorts(arr[..], j);
        ghost var s := arr[..];
        arr[j], arr[j + 1] := arr[j + 1], arr[j];
        assert arr[..] == Swapped(s, j);
        swapped := true;
      }
    }
    if !swapped {
      Ascends(arr[..], n - i);
    }
  }

  lemma SwapSettled(s: seq<Word>, k: int, j: int)
    requires 0 <= j && j + 1 < k <= |s| && Settled(s, k) && s[j] > s[j + 1] && Bubbled(s, j)
    ensures Settled(Swapped(s, j), k) && Bubbled(Swapped(s, j), j + 1)
  {
  }

  lemma Ascends(s: seq<Word>, m: int)
    requires 1 <= m <= |s| && Settled(s, m) && forall k :: 0 <= k < m - 1 ==> s[k] <= s[k + 1]
    ensures Sorted(s)
  {
    forall i, j | 0 <= i < j < |s| ensures s[i] <= s[j] {
      if j < m {
        var k := i;
        while k < j
          invariant i <= k <= j && s[i] <= s[k]
        {
          k := k + 1;
        }
      }
    }
  }

  /** The bubble sort with early exit leaves the values sorted. */
  method BubbleSort(arr: array<Word>)
    requires arr.Length > 0
    modifies arr
    ensures arr[..] == Sort(old(arr[..]))
  {
    var n := arr.Length;
    ghost var before := arr[..];
    var i := 0;
    while i < n - 1
      invariant 0 <= i <= n - 1 && Sort(arr[..]) == Sort(before)
      invariant Settled(arr[..], n - i)
    {
      var swapped := Pass(arr, i);
      if !swapped {
        break;
      }
      i := i + 1;
    }
    SortedStays(arr[..]);
  }

  // ---------- the median against outliers ----------

  function CountIn(s: seq<Word>, lo: int, hi: int): nat {
    if s == [] then 0 else (if lo <= s[0] <= hi then 1 else 0) + CountIn(s[1..], lo, hi)
  }

  lemma {:induction false} CountInsert(x: Word, s: seq<Word>, lo: int, hi: int)
    ensures CountIn(Insert(x, s), lo, hi) == (if lo <= x <= hi then 1 else 0) + CountIn(s, lo, hi)
  {
    if s != [] && x > s[0] {
      CountInsert(x, s[1..], lo, hi);
    } else {
      assert ([x] + s)[1..] == s;
    }
  }

  lemma {:induction false} CountSort(s: seq<Word>, lo: int, hi: int)
    ensures CountIn(Sort(s), lo, hi) == CountIn(s, lo, hi) && |Sort(s)| == |s|
  {
    SortSorts(s);
    assert |multiset(Sort(s))| == |multiset(s)|;
    if s != [] {
      CountSort(s[1..], lo, hi);
      CountInsert(s[0], Sort(s[1..]), lo, hi);
    }
  }

  function Median(s: seq<Word>): Word
    requires |s| == MEDBUFSIZE
  {
    CountSort(s, 0, 0);
    Sort(s)[MEDBUFSIZE / 2]
  }

  function In(x: Word, lo: int, hi: int): nat { if lo <= x <= hi then 1 else 0 }

  lemma CountFive(t: seq<Word>, lo: int, hi: int)
    requires |t| == MEDBUFSIZE
    ensures CountIn(t, lo, hi) == In(t[0], lo, hi) + In(t[1], lo, hi) + In(t[2], lo, hi) + In(t[3], lo, hi)
            + In(t[4], lo, hi)
  {
    assert CountIn(t, lo, hi) == In(t[0], lo, hi) + CountIn(t[1..], lo, hi);
    assert CountIn(t[1..], lo, hi) == In(t[1], lo, hi) + CountIn(t[2..], lo, hi) by {
      assert t[1..][1..] == t[2..];
    }
    assert CountIn(t[2..], lo, hi) == In(t[2], lo, hi) + CountIn(t[3..], lo, hi) by {
      assert t[2..][1..] == t[3..];
    }
    assert CountIn(t[3..], lo, hi) == In(t[3], lo, hi) + CountIn(t[4..], lo, hi) by {
      assert t[3..][1..] == t[4..];
    }
    assert CountIn(t[4..], lo, hi) == In(t[4], lo, hi) + CountIn([], lo, hi) by {
      assert t[4..][1..] == [];
    }
  }

  /** With at most two outliers among five samples the median is between good samples. */
  lemma MedianBetween(s: seq<Word>, lo: int, hi: int)
    requires |s| == MEDBUFSIZE && CountIn(s, lo, hi) >= 3
    ensures lo <= Median(s) <= hi
  {
    SortSorts(s);
    CountSort(s, lo, hi);
    CountFive(Sort(s), lo, hi);
    var t := Sort(s);
    hide Sort, CountIn;
    assert t[0] <= t[1] <= t[2] <= t[3] <= t[4];
  }

  // ---------- one channel ----------

  type MedBuf = b: seq<Word> | |b| == MEDBUFSIZE witness [0, 0, 0, 0, 0]

  datatype Ch = Ch(medbuf: MedBuf, medidx: nat, avgsum: Word, avgcnt: nat)

  function Sorted5(b: MedBuf): MedBuf {
    CountSort(b, 0, 0);
    Sort(b)
  }

  /** A converted sample; when 64 medians are in, their average is reported. */
  function Sample(c: Ch, v: Word): (Ch, Option<Word>) {
    if c.medidx >= MEDBUFSIZE then (c, None)
    else if c.medidx + 1 < MEDBUFSIZE then (c.(medbuf := c.medbuf[c.medidx := v], medidx := c.medidx + 1), None)
    else
      var buf := c.medbuf[c.medidx := v];
      var c1 := c.(medbuf := Sorted5(buf), medidx := 0, avgcnt := (c.avgcnt + 1) % 0x100);
      if c.avgcnt >= AVGCOUNT then (c1, None)
      else
        var sum := (c.avgsum + Median(buf)) % 0x1_0000;
        if c.avgcnt + 1 == AVGCOUNT then (c1.(avgcnt := 0, avgsum := 0), Some(sum / AVGCOUNT))
        else (c1.(avgsum := sum), None)
  }

  class Channel {
    const medbuf: array<Word>
    var medidx: nat
    var avgsum: Word
    var avgcnt: nat

    ghost predicate Valid()
      reads this
    {
      medbuf.Length == MEDBUFSIZE
    }

    ghost function View(): Ch
      requires Valid()
      reads this, medbuf
    {
      Ch(medbuf[..], medidx, avgsum, avgcnt)
    }

    /** The end of a conversion. */
    method OnConverted(adres: Word) returns (temp: Option<Word>)
      requires Valid()
      modifies this, medbuf
      ensures Valid() && (View(), temp) == Sample(old(View()), adres)
    {
      hide Sort;
      temp := None;
      if medidx < MEDBUFSIZE {
        medbuf[medidx] := adres;
        medidx := medidx + 1;
        if medidx == MEDBUFSIZE {
          medidx := 0;
          assert medbuf[..] == old(medbuf[..])[MEDBUFSIZE - 1 := adres];
          BubbleSort(medbuf);
          var val := medbuf[MEDBUFSIZE / 2];
          var cnt := avgcnt;
          avgcnt := (avgcnt + 1) % 0x100;
          if cnt < AVGCOUNT {
            avgsum := (avgsum + val) % 0x1_0000;
            if avgcnt == AVGCOUNT {
              temp := Some(avgsum / AVGCOUNT);
              avgcnt := 0;
              avgsum := 0;
            }
          }
        }
      }
    }
  }

  // ---------- 320 samples ----------

  function Feed(c: Ch, vs: seq<Word>): (Ch, seq<Word>)
    decreases |vs|
  {
    if vs == [] then (c, [])
    else
      var (c1, r) := Sample(c, vs[0]);
      var (c2, rs) := Feed(c1, vs[1..]);
      (c2, (if r.Some? then [r.value] else []) + rs)
  }

  lemma {:induction false} FeedConcat(c: Ch, vs: seq<Word>, ws: seq<Word>)
    ensures Feed(c, vs + ws).0 == Feed(Feed(c, vs).0, ws).0
    ensures Feed(c, vs + ws).1 == Feed(c, vs).1 + Feed(Feed(c, vs).0, ws).1
    decreases |vs|
  {
    if vs == [] {
      assert vs + ws == ws;
    } else {
      FeedConcat(Sample(c, vs[0]).0, vs[1..], ws);
      assert (vs + ws)[0] == vs[0] && (vs + ws)[1..] == vs[1..] + ws;
      hide Sample;
    }
  }

  /** The samples of one group up to i are in the buffer. */
  ghost predicate Filled(c: Ch, g: seq<Word>, i: nat)
    requires i < MEDBUFSIZE <= |g|
  {
    c.medidx == i && forall k :: 0 <= k < i ==> c.medbuf[k] == g[k]
  }

  lemma GroupSample(c: Ch, g: seq<Word>, i: nat)
    requires |g| == MEDBUFSIZE && i < MEDBUFSIZE && Filled(c, g, i) && c.avgcnt < AVGCOUNT
    requires c.avgsum + Median(g) < 0x1_0000
    ensures var (c', r) := Sample(c, g[i]);
            if i + 1 < MEDBUFSIZE then Filled(c', g, i + 1) && r == None && c'.avgcnt == c.avgcnt
              && c'.avgsum == c.avgsum
            else
              c'.medidx == 0
              && if c.avgcnt + 1 == AVGCOUNT then c'.avgcnt == 0 && c'.avgsum == 0
                && r == Some((c.avgsum + Median(g)) / AVGCOUNT)
                 else c'.avgcnt == c.avgcnt + 1 && c'.avgsum == c.avgsum + Median(g) && r == None
  {
    hide Median, Sorted5;
    var buf := c.medbuf[i := g[i]];
    assert i + 1 == MEDBUFSIZE ==> buf == g;
  }

  lemma {:induction false} FeedGroup(c: Ch, g: seq<Word>, i: nat)
    requires |g| == MEDBUFSIZE && i < MEDBUFSIZE && Filled(c, g, i) && c.avgcnt < AVGCOUNT
    requires c.avgsum + Median(g) < 0x1_0000
    ensures var (c', rs) := Feed(c, g[i..]);
            && c'.medidx == 0
            && if c.avgcnt + 1 == AVGCOUNT then c'.avgcnt == 0 && c'.avgsum == 0
              && rs == [(c.avgsum + Median(g)) / AVGCOUNT]
               else c'.avgcnt == c.avgcnt + 1 && c'.avgsum == c.avgsum + Median(g) && rs == []
    decreases MEDBUFSIZE - i
  {
    hide Median, Sample, Filled;
    GroupSample(c, g, i);
    var (c1, r) := Sample(c, g[i]);
    assert g[i..][0] == g[i] && g[i..][1..] == g[i + 1..];
    if i + 1 < MEDBUFSIZE {
      FeedGroup(c1, g, i + 1);
    } else {
      assert g[i + 1..] == [];
    }
  }

  lemma MedianIn(g: seq<Word>)
    requires |g| == MEDBUFSIZE
    ensures Median(g) in g
  {
    SortSorts(g);
    CountSort(g, 0, 0);
    assert Median(g) in multiset(Sort(g));
  }

  function Concat(gs: seq<seq<Word>>): seq<Word> {
    if gs == [] then [] else gs[0] + Concat(gs[1..])
  }

  function MedianSum(gs: seq<seq<Word>>): int
    requires forall g :: g in gs ==> |g| == MEDBUFSIZE
  {
    if gs == [] then 0 else Median(gs[0]) + MedianSum(gs[1..])
  }

  lemma {:induction false} FeedGroups(c: Ch, gs: seq<seq<Word>>)
    requires c.medidx == 0 && gs != [] && c.avgcnt + |gs| == AVGCOUNT
    requires c.avgsum <= c.avgcnt * ADC_MAX
    requires forall g :: g in gs ==> |g| == MEDBUFSIZE && forall v :: v in g ==> v <= ADC_MAX
    ensures var (c', rs) := Feed(c, Concat(gs));
            rs == [(c.avgsum + MedianSum(gs)) / AVGCOUNT] && c'.medidx == 0 && c'.avgcnt == 0 && c'.avgsum == 0
    decreases |gs|
  {
    hide *;
    var g, rest := gs[0], gs[1..];
    GroupsUnfold(gs);
    GroupFits(c, g);
    FeedWhole(c, g);
    FeedConcat(c, g, Concat(rest));
    var c1 := Feed(c, g).0;
    if |gs| == 1 {
      NoGroups(c1, rest);
      OneReport(Feed(c, g).1);
    } else {
      FeedGroups(c1, rest);
      OneReport(Feed(c1, Concat(rest)).1);
    }
  }

  lemma GroupsUnfold(gs: seq<seq<Word>>)
    requires gs != [] && forall g :: g in gs ==> |g| == MEDBUFSIZE && forall v :: v in g ==> v <= ADC_MAX
    ensures Concat(gs) == gs[0] + Concat(gs[1..]) && MedianSum(gs) == Median(gs[0]) + MedianSum(gs[1..])
    ensures gs[0] in gs && forall g :: g in gs[1..] ==> g in gs
  {
    hide Median;
  }

  lemma NoGroups(c: Ch, gs: seq<seq<Word>>)
    requires gs == []
    ensures Feed(c, Concat(gs)) == (c, []) && MedianSum(gs) == 0
  {
  }

  lemma OneReport(rs: seq<Word>)
    ensures rs + [] == rs && [] + rs == rs
  {
  }

  /** The 16-bit sum does not wrap. */
  lemma GroupFits(c: Ch, g: seq<Word>)
    requires c.avgcnt < AVGCOUNT && c.avgsum <= c.avgcnt * ADC_MAX
    requires |g| == MEDBUFSIZE && forall v :: v in g ==> v <= ADC_MAX
    ensures c.avgsum + Median(g) <= (c.avgcnt + 1) * ADC_MAX && c.avgsum + Median(g) < 0x1_0000
  {
    MedianIn(g);
    hide Median;
  }

  lemma FeedWhole(c: Ch, g: seq<Word>)
    requires |g| == MEDBUFSIZE && c.medidx == 0 && c.avgcnt < AVGCOUNT && c.avgsum + Median(g) < 0x1_0000
    ensures var (c', rs) := Feed(c, g);
            && c'.medidx == 0
            && if c.avgcnt + 1 == AVGCOUNT then c'.avgcnt == 0 && c'.avgsum == 0
              && rs == [(c.avgsum + Median(g)) / AVGCOUNT]
               else c'.avgcnt == c.avgcnt + 1 && c'.avgsum == c.avgsum + Median(g) && rs == []
  {
    assert g[0..] == g && Filled(c, g, 0);
    hide Median, Feed, Filled;
    FeedGroup(c, g, 0);
  }

  lemma {:induction false} MedianSumBetween(gs: seq<seq<Word>>, lo: int, hi: int)
    requires forall g :: g in gs ==> |g| == MEDBUFSIZE && CountIn(g, lo, hi) >= 3
    ensures |gs| * lo <= MedianSum(gs) <= |gs| * hi
  {
    if gs != [] {
      MedianBetween(gs[0], lo, hi);
      MedianSumBetween(gs[1..], lo, hi);
      hide Median, CountIn;
      OneMore(|gs| - 1, lo);
      OneMore(|gs| - 1, hi);
    }
  }

  lemma OneMore(n: int, x: int)
    ensures (n + 1) * x == n * x + x
  {
  }

  /** The filter, from an empty channel: 64 times five 10-bit samples give exactly one
      report, the exact average of the 64 medians (the 16-bit sum never wraps), and if at
      most two of each five samples lie outside a range, the report lies in it. */
  lemma ReportInRange(c: Ch, gs: seq<seq<Word>>, lo: int, hi: int)
    requires c.medidx == 0 && c.avgcnt == 0 && c.avgsum == 0 && |gs| == AVGCOUNT
    requires forall g :: g in gs ==> |g| == MEDBUFSIZE && forall v :: v in g ==> v <= ADC_MAX
    requires forall g :: g in gs ==> CountIn(g, lo, hi) >= 3
    ensures var (c', rs) := Feed(c, Concat(gs));
            && rs == [MedianSum(gs) / AVGCOUNT] && lo <= rs[0] <= hi
            && c'.medidx == 0 && c'.avgcnt == 0 && c'.avgsum == 0
  {
    FeedGroups(c, gs);
    MedianSumBetween(gs, lo, hi);
    hide MedianSum, Feed, CountIn;
  }

  // ---------- any number of samples ----------

  const ROUND := MEDBUFSIZE * AVGCOUNT

  /** The first n groups of five samples. */
  function Groups(vs: seq<Word>, n: nat): (r: seq<seq<Word>>)
    requires MEDBUFSIZE * n <= |vs|
    ensures |r| == n && forall i :: 0 <= i < n ==> r[i] == vs[MEDBUFSIZE * i..MEDBUFSIZE * i + MEDBUFSIZE]
  {
    seq(n, i requires 0 <= i < n => vs[MEDBUFSIZE * i..MEDBUFSIZE * i + MEDBUFSIZE])
  }

  lemma GroupsTail(vs: seq<Word>, n: nat)
    requires 0 < n && MEDBUFSIZE * n <= |vs|
    ensures Groups(vs, n)[0] == vs[..MEDBUFSIZE] && Groups(vs, n)[1..] == Groups(vs[MEDBUFSIZE..], n - 1)
  {
    var ws := vs[MEDBUFSIZE..];
    var r, t := Groups(vs, n)[1..], Groups(ws, n - 1);
    forall i | 0 <= i < n - 1 ensures r[i] == t[i] {
      GroupShift(vs, n, i);
    }
  }

  lemma GroupShift(vs: seq<Word>, n: nat, i: nat)
    requires i + 1 < n && MEDBUFSIZE * n <= |vs|
    ensures Groups(vs, n)[i + 1] == Groups(vs[MEDBUFSIZE..], n - 1)[i]
  {
    var a := MEDBUFSIZE * i;
    assert MEDBUFSIZE * (i + 1) == a + MEDBUFSIZE;
    Shift(vs, MEDBUFSIZE, a, a + MEDBUFSIZE);
  }

  lemma Shift(vs: seq<Word>, k: nat, a: nat, b: nat)
    requires a <= b && k + b <= |vs|
    ensures vs[k..][a..b] == vs[k + a..k + b]
  {
  }

  lemma {:induction false} ConcatGroups(vs: seq<Word>, n: nat)
    requires MEDBUFSIZE * n <= |vs|
    ensures Concat(Groups(vs, n)) == vs[..MEDBUFSIZE * n]
    decreases n
  {
    if n > 0 {
      var ws := vs[MEDBUFSIZE..];
      GroupsTail(vs, n);
      ConcatGroups(ws, n - 1);
      assert vs[..MEDBUFSIZE] + ws[..MEDBUFSIZE * (n - 1)] == vs[..MEDBUFSIZE * n];
      hide Groups;
    }
  }

  /** The groups of round j. */
  function RoundOf(vs: seq<Word>, j: nat): (r: seq<seq<Word>>)
    requires ROUND * (j + 1) <= |vs|
    ensures |r| == AVGCOUNT && forall g :: g in r ==> |g| == MEDBUFSIZE
  {
    Groups(vs[ROUND * j..], AVGCOUNT)
  }

  /** At most two of each five samples of the round lie outside. */
  ghost predicate MostlyIn(gs: seq<seq<Word>>, lo: int, hi: int) { forall g :: g in gs ==> CountIn(g, lo, hi) >= 3 }

  /** Fewer samples than are missing for a report give none. */
  lemma {:induction false} FewNoReport(c: Ch, vs: seq<Word>)
    requires c.medidx < MEDBUFSIZE && c.avgcnt < AVGCOUNT && MEDBUFSIZE * c.avgcnt + c.medidx + |vs| < ROUND
    ensures Feed(c, vs).1 == []
    decreases |vs|
  {
    if vs != [] {
      hide Median, Sorted5;
      var (c1, r) := Sample(c, vs[0]);
      assert r == None && MEDBUFSIZE * c1.avgcnt + c1.medidx == MEDBUFSIZE * c.avgcnt + c.medidx + 1;
      assert c1.medidx < MEDBUFSIZE && c1.avgcnt < AVGCOUNT;
      hide Sample;
      FewNoReport(c1, vs[1..]);
    }
  }

  /** What is reported of a round. */
  ghost predicate Reports(r: int, gs: seq<seq<Word>>)
    requires forall g :: g in gs ==> |g| == MEDBUFSIZE
  {
    r == MedianSum(gs) / AVGCOUNT && forall lo, hi :: MostlyIn(gs, lo, hi) ==> lo <= r <= hi
  }

  lemma SliceBound(vs: seq<Word>, a: nat, b: nat)
    requires a <= b <= |vs| && forall v :: v in vs ==> v <= ADC_MAX
    ensures forall v :: v in vs[a..b] ==> v <= ADC_MAX
  {
    forall v | v in vs[a..b] ensures v in vs {
      var k :| 0 <= k < b - a && vs[a..b][k] == v;
      assert vs[a + k] == v;
    }
  }

  lemma FirstRound(c: Ch, vs: seq<Word>)
    requires c.medidx == 0 && c.avgcnt == 0 && c.avgsum == 0 && |vs| >= ROUND
    requires forall v :: v in vs ==> v <= ADC_MAX
    ensures var (c', rs) := Feed(c, vs[..ROUND]);
            |rs| == 1 && Reports(rs[0], RoundOf(vs, 0)) && c'.medidx == 0 && c'.avgcnt == 0 && c'.avgsum == 0
  {
    var gs := Groups(vs, AVGCOUNT);
    assert vs[ROUND * 0..] == vs;
    ConcatGroups(vs, AVGCOUNT);
    forall g | g in gs ensures |g| == MEDBUFSIZE && forall v :: v in g ==> v <= ADC_MAX {
      var i :| 0 <= i < AVGCOUNT && gs[i] == g;
      SliceBound(vs, MEDBUFSIZE * i, MEDBUFSIZE * i + MEDBUFSIZE);
    }
    hide Groups, Feed, MedianSum, Concat;
    FeedGroups(c, gs);
    var r := MedianSum(gs) / AVGCOUNT;
    forall lo, hi | MostlyIn(gs, lo, hi) ensures lo <= r <= hi {
      MedianSumBetween(gs, lo, hi);
    }
    hide CountIn;
  }

  lemma RoundShifts(vs: seq<Word>, j: nat)
    requires ROUND * (j + 2) <= |vs|
    ensures RoundOf(vs, j + 1) == RoundOf(vs[ROUND..], j)
  {
    assert vs[ROUND..][ROUND * j..] == vs[ROUND * (j + 1)..];
  }

  /** From an empty channel, over any number of 10-bit samples: one report for each full 320,
      the exact average of their 64 medians (the 16-bit sum never wraps), within every range
      that at most two of each five samples miss. */
  lemma {:induction false} EveryReport(c: Ch, vs: seq<Word>)
    requires c.medidx == 0 && c.avgcnt == 0 && c.avgsum == 0
    requires forall v :: v in vs ==> v <= ADC_MAX
    ensures var rs := Feed(c, vs).1;
            |rs| == |vs| / ROUND
            && forall j :: 0 <= j < |rs| ==> ROUND * (j + 1) <= |vs| && Reports(rs[j], RoundOf(vs, j))
    decreases |vs|
  {
    hide Reports, RoundOf, Feed;
    if |vs| < ROUND {
      FewNoReport(c, vs);
    } else {
      var first, rest := vs[..ROUND], vs[ROUND..];
      assert vs == first + rest;
      FirstRound(c, vs);
      SliceBound(vs, ROUND, |vs|);
      assert rest == vs[ROUND..|vs|];
      FeedConcat(c, first, rest);
      var (c1, rs1) := Feed(c, first);
      EveryReport(c1, rest);
      MoreReports(vs, rs1, Feed(c1, rest).1);
    }
  }

  /** The reports of the first round and of the others. */
  lemma MoreReports(vs: seq<Word>, rs1: seq<Word>, rs: seq<Word>)
    requires |vs| >= ROUND && |rs1| == 1 && Reports(rs1[0], RoundOf(vs, 0))
    requires |rs| == |vs[ROUND..]| / ROUND
    requires forall j :: 0 <= j < |rs| ==> ROUND * (j + 1) <= |vs[ROUND..]| && Reports(rs[j], RoundOf(vs[ROUND..], j))
    ensures |rs1 + rs| == |vs| / ROUND
    ensures forall j :: 0 <= j < |rs1 + rs| ==>
              ROUND * (j + 1) <= |vs| && Reports((rs1 + rs)[j], RoundOf(vs, j))
  {
    hide Reports, RoundOf;
    forall j | 0 < j < |rs1 + rs| ensures ROUND * (j + 1) <= |vs| && Reports((rs1 + rs)[j], RoundOf(vs, j)) {
      assert ROUND * j <= |vs[ROUND..]|;
      RoundShifts(vs, j - 1);
    }
  }
}
