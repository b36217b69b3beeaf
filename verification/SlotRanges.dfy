/**
 The slots of a node as text: " 5" for a single slot, " 5-9" for a range
 (clusterGenNodeDescription, clusterGenNodesSlotsInfo), and the loading of such
 text back into a slot table (clusterLoadConfig).
 */
module SlotRanges {
  import opened Options
  import opened Decimal

  type NodeId = nat

  datatype Range = Range(start: nat, stop: nat)

  // ------------------------------------------------------------------
  // Maximal runs
  // ------------------------------------------------------------------

  /** The maximal runs of set bits below `n`, in order. */
  function Runs(bits: seq<bool>, n: nat): (r: seq<Range>)
    requires n <= |bits|
    ensures n > 0 && bits[n - 1] ==> |r| > 0
  {
    if n == 0 then []
    else if !bits[n - 1] then Runs(bits, n - 1)
    else if n >= 2 && bits[n - 2] then
      var r := Runs(bits, n - 1);
      r[..|r| - 1] + [Range(r[|r| - 1].start, n - 1)]
    else Runs(bits, n - 1) + [Range(n - 1, n - 1)]
  }

  /** Slot `j` lies in one of the ranges. */
  predicate In(r: seq<Range>, j: nat) {
    r != [] && (r[|r| - 1].start <= j <= r[|r| - 1].stop || In(r[..|r| - 1], j))
  }

  /** The ranges are in order, lie below `n`, and no two of them touch. */
  predicate Ordered(r: seq<Range>, n: nat) {
    r != [] ==>
      var last := r[|r| - 1];
      last.start <= last.stop < n && Ordered(r[..|r| - 1], if last.start == 0 then 0 else last.start - 1)
  }

  /** What makes `r` the ranges of `bits` below `n`. */
  ghost predicate Covers(bits: seq<bool>, n: nat, r: seq<Range>)
    requires n <= |bits|
  {
    Ordered(r, n) && forall j | 0 <= j < n :: bits[j] <==> In(r, j)
  }

  lemma {:induction false} InBelow(r: seq<Range>, n: nat, j: nat)
    requires Ordered(r, n) && In(r, j)
    ensures j < n
  {
    var last := r[|r| - 1];
    if !(last.start <= j <= last.stop) {
      InBelow(r[..|r| - 1], if last.start == 0 then 0 else last.start - 1, j);
    }
  }

  lemma OrderedMore(r: seq<Range>, n: nat, m: nat)
    requires Ordered(r, n) && n <= m
    ensures Ordered(r, m)
  {
  }

  lemma InSnoc(p: seq<Range>, r: Range, j: nat)
    ensures In(p + [r], j) <==> r.start <= j <= r.stop || In(p, j)
  {
    assert (p + [r])[..|p|] == p;
  }

  lemma OrderedSnoc(p: seq<Range>, r: Range, n: nat)
    requires r.start <= r.stop < n && Ordered(p, if r.start == 0 then 0 else r.start - 1)
    ensures Ordered(p + [r], n)
  {
    assert (p + [r])[..|p|] == p;
  }

  /** A slot that is not set leaves the cover as it is. */
  lemma CoverSkips(bits: seq<bool>, n: nat, r: seq<Range>)
    requires 0 < n <= |bits| && !bits[n - 1] && Covers(bits, n - 1, r)
    ensures Covers(bits, n, r)
  {
    OrderedMore(r, n - 1, n);
    if In(r, n - 1) {
      InBelow(r, n - 1, n - 1);
    }
  }

  /** A set slot with none before it is a range of its own. */
  lemma CoverOpens(bits: seq<bool>, n: nat, p: seq<Range>)
    requires 0 < n <= |bits| && bits[n - 1] && Covers(bits, n - 1, p) && Ordered(p, if n == 1 then 0 else n - 2)
    ensures Covers(bits, n, p + [Range(n - 1, n - 1)])
  {
    hide In, Ordered;
    OrderedSnoc(p, Range(n - 1, n - 1), n);
    forall j | 0 <= j < n
      ensures bits[j] <==> In(p + [Range(n - 1, n - 1)], j)
    {
      InSnoc(p, Range(n - 1, n - 1), j);
    }
  }

  /** A set slot right behind the last range makes it longer. */
  lemma CoverGrows(bits: seq<bool>, n: nat, p: seq<Range>, start: nat)
    requires 0 < n <= |bits| && bits[n - 1] && start < n - 1 && Covers(bits, n - 1, p + [Range(start, n - 2)])
    ensures Covers(bits, n, p + [Range(start, n - 1)])
  {
    var last := Range(start, n - 2);
    assert Ordered(p, if start == 0 then 0 else start - 1) by {
      assert (p + [last])[..|p|] == p;
    }
    hide In, Ordered;
    OrderedSnoc(p, Range(start, n - 1), n);
    forall j | 0 <= j < n
      ensures bits[j] <==> In(p + [Range(start, n - 1)], j)
    {
      InSnoc(p, Range(start, n - 1), j);
      InSnoc(p, last, j);
      if j < n - 1 {
        assert bits[j] <==> In(p + [last], j);
      }
    }
  }

  lemma {:induction false} RunsCover(bits: seq<bool>, n: nat)
    requires n <= |bits|
    ensures Covers(bits, n, Runs(bits, n))
    ensures n > 0 && bits[n - 1] ==> Runs(bits, n)[|Runs(bits, n)| - 1].stop == n - 1
    ensures n > 0 && !bits[n - 1] ==> Ordered(Runs(bits, n), n - 1)
  {
    if n > 0 {
      hide In;
      RunsCover(bits, n - 1);
      var p := Runs(bits, n - 1);
      if !bits[n - 1] {
        CoverSkips(bits, n, p);
      } else if n >= 2 && bits[n - 2] {
        var start := p[|p| - 1].start;
        assert p == p[..|p| - 1] + [Range(start, n - 2)];
        CoverGrows(bits, n, p[..|p| - 1], start);
      } else {
        CoverOpens(bits, n, p);
      }
    }
  }

  /** No other list covers a set of slots that way. */
  lemma {:induction false} CoverUnique(bits: seq<bool>, n: nat, r: seq<Range>)
    requires n <= |bits| && Covers(bits, n, r)
    ensures r == Runs(bits, n)
  {
    if n > 0 {
      if !bits[n - 1] {
        CoverBelow(bits, n, r);
        CoverUnique(bits, n - 1, r);
      } else {
        LastReaches(r, n);
        var last := |r| - 1;
        var p := if r[last].start == n - 1 then r[..last] else r[..last] + [Range(r[last].start, n - 2)];
        CoverShorter(bits, n, r, p);
        CoverUnique(bits, n - 1, p);
        LongerAgain(bits, n, r, p);
      }
    }
  }

  /** Putting slot `n - 1` back into the shortened cover. */
  lemma LongerAgain(bits: seq<bool>, n: nat, r: seq<Range>, p: seq<Range>)
    requires 0 < n <= |bits| && bits[n - 1] && Covers(bits, n, r) && r != [] && r[|r| - 1].stop == n - 1
    requires var last := |r| - 1;
             p == if r[last].start == n - 1 then r[..last] else r[..last] + [Range(r[last].start, n - 2)]
    requires p == Runs(bits, n - 1)
    ensures r == Runs(bits, n)
  {
    var last := |r| - 1;
    if r[last].start == n - 1 {
      if n >= 2 && bits[n - 2] {
        assert In(r[..last], n - 2);
        InBelow(r[..last], n - 2, n - 2);
      }
      assert r == p + [r[last]];
    } else {
      assert In(r, n - 2) && bits[n - 2];
      assert r == p[..last] + [Range(p[last].start, n - 1)];
    }
  }

  lemma CoverBelow(bits: seq<bool>, n: nat, r: seq<Range>)
    requires 0 < n <= |bits| && !bits[n - 1] && Covers(bits, n, r)
    ensures Covers(bits, n - 1, r)
  {
    assert In(r, n - 1) == bits[n - 1];
  }

  lemma LastReaches(r: seq<Range>, n: nat)
    requires n > 0 && Ordered(r, n) && In(r, n - 1)
    ensures r[|r| - 1].stop == n - 1
  {
    var last := r[|r| - 1];
    if !(last.start <= n - 1 <= last.stop) {
      InBelow(r[..|r| - 1], if last.start == 0 then 0 else last.start - 1, n - 1);
    }
  }

  lemma CoverShorter(bits: seq<bool>, n: nat, r: seq<Range>, p: seq<Range>)
    requires 0 < n <= |bits| && bits[n - 1] && Covers(bits, n, r) && r != [] && r[|r| - 1].stop == n - 1
    requires var last := |r| - 1;
             if r[last].start == n - 1 then p == r[..last] else p == r[..last] + [Range(r[last].start, n - 2)]
    ensures Covers(bits, n - 1, p)
  {
    var last := |r| - 1;
    if r[last].start == n - 1 {
      OrderedMore(p, if n - 1 == 0 then 0 else n - 2, n - 1);
    } else {
      assert p[..last] == r[..last];
    }
  }

  // ------------------------------------------------------------------
  // Printing
  // ------------------------------------------------------------------

  const SPACE: byte := 32
  const DASH: byte := 45

  function RangeText(r: Range): bytes {
    if r.start == r.stop then [SPACE] + Print(r.start)
    else [SPACE] + Print(r.start) + [DASH] + Print(r.stop)
  }

  function RangesText(rs: seq<Range>): bytes {
    if rs == [] then [] else RangesText(rs[..|rs| - 1]) + RangeText(rs[|rs| - 1])
  }

  lemma RangesTextSnoc(rs: seq<Range>, r: Range)
    ensures RangesText(rs + [r]) == RangesText(rs) + RangeText(r)
  {
    assert (rs + [r])[..|rs|] == rs;
  }

  /** The text of the slots below `n`. */
  function Text(bits: seq<bool>, n: nat): bytes
    requires n <= |bits|
  {
    RangesText(Runs(bits, n))
  }

  lemma TextOfNothing(bits: seq<bool>)
    ensures Text(bits, 0) == []
  {
  }

  /** A stretch of set bits with nothing set just before it is one more range. */
  lemma {:induction false} RunEnds(bits: seq<bool>, start: nat, end: nat)
    requires start < end <= |bits|
    requires forall j | start <= j < end :: bits[j]
    requires start == 0 || !bits[start - 1]
    ensures Runs(bits, end) == Runs(bits, start) + [Range(start, end - 1)]
  {
    if end > start + 1 {
      RunEnds(bits, start, end - 1);
    }
  }

  lemma {:induction false} NoRun(bits: seq<bool>, start: nat, end: nat)
    requires start <= end <= |bits|
    requires forall j | start <= j < end :: !bits[j]
    ensures Runs(bits, end) == Runs(bits, start)
  {
    if end > start {
      NoRun(bits, start, end - 1);
    }
  }

  /** The two sdscatfmt calls both generators choose from. */
  method CatRange(ci: bytes, start: nat, stop: nat) returns (r: bytes)
    ensures r == ci + RangeText(Range(start, stop))
  {
    if start == stop {
      r := ci + ([SPACE] + Print(start));
    } else {
      r := ci + ([SPACE] + Print(start) + [DASH] + Print(stop));
    }
  }

  /** The run [start, stop) is complete once slot `j - 1` has been looked at. */
  method CloseRun(ci: bytes, ghost bits: seq<bool>, start: nat, stop: nat, ghost j: nat) returns (r: bytes)
    requires start < stop <= j <= |bits| && ci == Text(bits, start)
    requires forall k | start <= k < stop :: bits[k]
    requires forall k | stop <= k < j :: !bits[k]
    requires start == 0 || !bits[start - 1]
    ensures r == Text(bits, j)
  {
    RunEnds(bits, start, stop);
    RangesTextSnoc(Runs(bits, start), Range(start, stop - 1));
    NoRun(bits, stop, j);
    r := CatRange(ci, start, stop - 1);
  }

  lemma TextSame(bits: seq<bool>, start: nat, end: nat)
    requires start <= end <= |bits|
    requires forall j | start <= j < end :: !bits[j]
    ensures Text(bits, end) == Text(bits, start)
  {
    NoRun(bits, start, end);
  }

  /** The slots part of clusterGenNodeDescription: one node's bitmap, scanned
      with `start` as -1 outside a run. */
  method GenNodeSlots(bits: seq<bool>) returns (ci: bytes)
    ensures ci == Text(bits, |bits|)
  {
    hide Text;
    TextOfNothing(bits);
    ci := [];
    var start: int := -1;
    for j := 0 to |bits|
      invariant -1 <= start < j && (j == |bits| ==> start == -1)
      invariant forall k | 0 <= k && start <= k < j && start != -1 :: bits[k]
      invariant 0 < j < |bits| && start == -1 ==> !bits[j - 1]
      invariant start > 0 ==> !bits[start - 1]
      invariant ci == Text(bits, if start == -1 then j else start)
    {
      var bit := bits[j];
      if bit && start == -1 {
        start := j;
      }
      if start == -1 {
        TextSame(bits, j, j + 1);
      } else if !bit || j == |bits| - 1 {
        var stop := if bit && j == |bits| - 1 then j + 1 else j;
        ci := CloseRun(ci, bits, start, stop, j + 1);
        start := -1;
      }
    }
  }

  // ------------------------------------------------------------------
  // All nodes in one pass
  // ------------------------------------------------------------------

  function BitsOf(slots: seq<Option<NodeId>>, n: NodeId): seq<bool> {
    seq(|slots|, j requires 0 <= j < |slots| => slots[j] == Some(n))
  }

  /** slots_info as clusterGenNodesSlotsInfo must leave it for the slots below
      `upto`: nothing for a node that is filtered out or has no slot there. */
  ghost predicate InfoUpTo(slots: seq<Option<NodeId>>, hidden: set<NodeId>, upto: nat, info: map<NodeId, bytes>)
    requires upto <= |slots|
  {
    && (forall n | n in info :: n !in hidden && info[n] == Text(BitsOf(slots, n), upto))
    && (forall j | 0 <= j < upto :: slots[j].Some? && slots[j].value !in hidden ==> slots[j].value in info)
    && (forall n | n in info :: exists j :: 0 <= j < upto && slots[j] == Some(n))
  }

  /** The stretch of slots [start, end) of `n` closes one range of its info. */
  lemma InfoRun(slots: seq<Option<NodeId>>, hidden: set<NodeId>, start: nat, end: nat, n: NodeId,
                info: map<NodeId, bytes>, info': map<NodeId, bytes>)
    requires start < end <= |slots| && InfoUpTo(slots, hidden, start, info)
    requires forall j | start <= j < end :: slots[j] == Some(n)
    requires info' == if n in hidden then info else info[n := Text(BitsOf(slots, n), end)]
    ensures InfoUpTo(slots, hidden, end, info')
  {
    hide Text;
    forall m | m in info' && m != n
      ensures info'[m] == Text(BitsOf(slots, m), end)
    {
      TextSame(BitsOf(slots, m), start, end);
    }
    assert slots[start] == Some(n);
  }

  /** A node without slots so far has an empty text. */
  lemma InfoStarts(slots: seq<Option<NodeId>>, hidden: set<NodeId>, start: nat, n: NodeId, info: map<NodeId, bytes>)
    requires start <= |slots| && InfoUpTo(slots, hidden, start, info) && n !in hidden
    ensures Text(BitsOf(slots, n), start) == if n in info then info[n] else []
  {
    if n !in info {
      TextSame(BitsOf(slots, n), 0, start);
      TextOfNothing(BitsOf(slots, n));
    }
  }

  lemma InfoGap(slots: seq<Option<NodeId>>, hidden: set<NodeId>, start: nat, info: map<NodeId, bytes>)
    requires start < |slots| && InfoUpTo(slots, hidden, start, info) && slots[start].None?
    ensures InfoUpTo(slots, hidden, start + 1, info)
  {
    hide Text;
    forall m | m in info
      ensures info[m] == Text(BitsOf(slots, m), start + 1)
    {
      TextSame(BitsOf(slots, m), start, start + 1);
    }
  }

  /** clusterGenNodesSlotsInfo: the texts of all nodes in one pass over the
      slots.  `hidden` are the nodes with a flag of the filter. */
  method GenNodesSlotsInfo(slots: seq<Option<NodeId>>, hidden: set<NodeId>) returns (info: map<NodeId, bytes>)
    ensures InfoUpTo(slots, hidden, |slots|, info)
  {
    hide Text;
    info := map[];
    var n: Option<NodeId> := None;
    var start := -1;
    var i := 0;
    while i <= |slots|
      invariant 0 <= i <= |slots| + 1
      invariant n.None? ==> i <= |slots| && (i == 0 || slots[i - 1].None?) && InfoUpTo(slots, hidden, i, info)
      invariant n.Some? ==>
                  && i <= |slots| && 0 <= start < i && (forall j | start <= j < i :: slots[j] == n)
                  && (start == 0 || slots[start - 1] != n) && InfoUpTo(slots, hidden, start, info)
      decreases |slots| + 1 - i
    {
      if n.None? {
        if i == |slots| {
          break;
        }
        n, start := slots[i], i;
        if n.None? {
          InfoGap(slots, hidden, i, info);
        }
        i := i + 1;
        continue;
      }
      if i == |slots| || n != slots[i] {
        ghost var before := info;
        if n.value !in hidden {
          InfoStarts(slots, hidden, start, n.value, info);
          var text := CloseRun(if n.value in info then info[n.value] else [], BitsOf(slots, n.value), start, i, i);
          info := info[n.value := text];
        }
        InfoRun(slots, hidden, start, i, n.value, before, info);
        if i == |slots| {
          return;
        }
        n, start := slots[i], i;
        if n.None? {
          InfoGap(slots, hidden, i, info);
        }
      }
      i := i + 1;
    }
  }

  // ------------------------------------------------------------------
  // Loading
  // ------------------------------------------------------------------

  /** Where the last word of a line starts. */
  function WordStart(s: bytes): (k: nat)
    ensures k <= |s| && forall i | k <= i < |s| :: s[i] != SPACE
    ensures k > 0 ==> s[k - 1] == SPACE
  {
    if s == [] || s[|s| - 1] == SPACE then |s| else WordStart(s[..|s| - 1])
  }

  /** The words of a line of the configuration file. */
  function Words(s: bytes): seq<bytes>
    decreases |s|
  {
    if s == [] then []
    else if s[|s| - 1] == SPACE then Words(s[..|s| - 1])
    else
      assert WordStart(s) < |s|;
      Words(s[..WordStart(s)]) + [s[WordStart(s)..]]
  }

  lemma {:induction false} WordStartIs(s: bytes, w: bytes)
    requires forall i | 0 <= i < |w| :: w[i] != SPACE
    ensures WordStart(s + [SPACE] + w) == |s| + 1
  {
    var t := s + [SPACE] + w;
    if w != [] {
      assert t[..|t| - 1] == s + [SPACE] + w[..|w| - 1];
      WordStartIs(s, w[..|w| - 1]);
    }
  }

  lemma WordsSnoc(s: bytes, w: bytes)
    requires w != [] && forall i | 0 <= i < |w| :: w[i] != SPACE
    ensures Words(s + [SPACE] + w) == Words(s) + [w]
  {
    var t := s + [SPACE] + w;
    WordStartIs(s, w);
    assert t[..|s| + 1] == s + [SPACE] && t[|s| + 1..] == w;
    assert (s + [SPACE])[..|s|] == s;
  }

  function RangeWord(r: Range): bytes {
    if r.start == r.stop then Print(r.start) else Print(r.start) + [DASH] + Print(r.stop)
  }

  function RangeWords(rs: seq<Range>): seq<bytes> {
    seq(|rs|, i requires 0 <= i < |rs| => RangeWord(rs[i]))
  }

  lemma RangeWordFacts(r: Range)
    ensures RangeText(r) == [SPACE] + RangeWord(r) && RangeWord(r) != []
    ensures forall i | 0 <= i < |RangeWord(r)| :: RangeWord(r)[i] != SPACE
  {
  }

  lemma SpaceFirst(a: bytes, w: bytes, t: bytes)
    requires t == [SPACE] + w
    ensures a + t == a + [SPACE] + w
  {
  }

  lemma LastWord(rs: seq<Range>)
    requires rs != []
    ensures RangesText(rs) == RangesText(rs[..|rs| - 1]) + [SPACE] + RangeWord(rs[|rs| - 1])
  {
    hide RangeText, RangeWord;
    RangeWordFacts(rs[|rs| - 1]);
    SpaceFirst(RangesText(rs[..|rs| - 1]), RangeWord(rs[|rs| - 1]), RangeText(rs[|rs| - 1]));
  }

  lemma LastOfWords(rs: seq<Range>)
    requires rs != []
    ensures RangeWords(rs) == RangeWords(rs[..|rs| - 1]) + [RangeWord(rs[|rs| - 1])]
  {
  }

  lemma {:induction false} WordsOfRanges(rs: seq<Range>)
    ensures Words(RangesText(rs)) == RangeWords(rs)
  {
    if rs != [] {
      hide RangesText, RangeText, RangeWord, RangeWords, Words;
      var init, r := rs[..|rs| - 1], rs[|rs| - 1];
      WordsOfRanges(init);
      RangeWordFacts(r);
      LastWord(rs);
      LastOfWords(rs);
      WordsSnoc(RangesText(init), RangeWord(r));
    }
  }

  /** strchr(s,'-') */
  function FindDash(s: bytes): (k: nat)
    ensures k <= |s| && (k < |s| ==> s[k] == DASH)
  {
    if s == [] || s[0] == DASH then 0 else 1 + FindDash(s[1..])
  }

  /** The slots a word of the file names, before any check. */
  function ParseWord(w: bytes): (int, int) {
    var k := FindDash(w);
    if k < |w| then (Atoi(w[..k]), Atoi(w[k + 1..])) else (Atoi(w), Atoi(w))
  }

  lemma {:induction false} FindDashIs(s: bytes, t: bytes)
    requires forall i | 0 <= i < |s| :: IsDigit(s[i])
    requires t == [] || t[0] == DASH
    ensures FindDash(s + t) == |s|
  {
    if s == [] {
      assert s + t == t;
    } else {
      assert (s + t)[1..] == s[1..] + t;
      FindDashIs(s[1..], t);
    }
  }

  lemma ParseRangeWord(r: Range)
    ensures ParseWord(RangeWord(r)) == (r.start, r.stop)
  {
    AtoiPrint(r.start, []);
    AtoiPrint(r.stop, []);
    assert Print(r.start) + [] == Print(r.start) && Print(r.stop) + [] == Print(r.stop);
    if r.start == r.stop {
      FindDashIs(Print(r.start), []);
    } else {
      FindDashIs(Print(r.start), [DASH] + Print(r.stop));
      var w := RangeWord(r);
      assert w == Print(r.start) + ([DASH] + Print(r.stop));
      assert w[..|Print(r.start)|] == Print(r.start) && w[|Print(r.start)| + 1..] == Print(r.stop);
    }
  }

  type Table = seq<Option<NodeId>>

  /** clusterAddSlot over a range: slots that have an owner keep it. */
  function AddRange(t: Table, n: NodeId, start: int, stop: int): Table {
    seq(|t|, j requires 0 <= j < |t| => if start <= j <= stop && t[j].None? then Some(n) else t[j])
  }

  /** The slot words of one line; a slot out of bounds is a format error. */
  function AddWords(t: Table, n: NodeId, words: seq<bytes>): Option<Table> {
    if words == [] then Some(t) else
      match AddWords(t, n, words[..|words| - 1])
      case None => None
      case Some(t1) =>
        var (start, stop) := ParseWord(words[|words| - 1]);
        if start < 0 || start >= |t1| || stop < 0 || stop >= |t1| then None else Some(AddRange(t1, n, start, stop))
  }

  lemma {:induction false} FailsForGood(t: Table, n: NodeId, words: seq<bytes>, k: nat)
    requires k <= |words| && AddWords(t, n, words[..k]).None?
    ensures AddWords(t, n, words).None?
  {
    if k == |words| {
      assert words[..k] == words;
    } else {
      assert words[..|words| - 1][..k] == words[..k];
      FailsForGood(t, n, words[..|words| - 1], k);
    }
  }

  /** The table with the free slots among `rs` given to `n`. */
  function Filled(t: Table, n: NodeId, rs: seq<Range>): Table {
    seq(|t|, j requires 0 <= j < |t| => if In(rs, j) && t[j].None? then Some(n) else t[j])
  }

  lemma FilledSnoc(t: Table, n: NodeId, rs: seq<Range>)
    requires rs != []
    ensures Filled(t, n, rs) == AddRange(Filled(t, n, rs[..|rs| - 1]), n, rs[|rs| - 1].start, rs[|rs| - 1].stop)
  {
  }

  lemma WordsInit(rs: seq<Range>)
    requires rs != []
    ensures RangeWords(rs)[..|rs| - 1] == RangeWords(rs[..|rs| - 1])
    ensures RangeWords(rs)[|rs| - 1] == RangeWord(rs[|rs| - 1])
  {
  }

  /** Loading ranges adds exactly the slots in them that are free. */
  lemma {:induction false} AddRanges(t: Table, n: NodeId, rs: seq<Range>, bound: nat)
    requires Ordered(rs, bound) && bound <= |t|
    ensures AddWords(t, n, RangeWords(rs)) == Some(Filled(t, n, rs))
  {
    if rs == [] {
      assert t == Filled(t, n, rs);
    } else {
      hide RangeWords, RangeWord, ParseWord, Filled, AddRange;
      var init, r := rs[..|rs| - 1], rs[|rs| - 1];
      AddRanges(t, n, init, if r.start == 0 then 0 else r.start - 1);
      WordsInit(rs);
      ParseRangeWord(r);
      FilledSnoc(t, n, rs);
      FilledLength(t, n, init);
    }
  }

  lemma FilledLength(t: Table, n: NodeId, rs: seq<Range>)
    ensures |Filled(t, n, rs)| == |t| && |RangeWords(rs)| == |rs|
  {
  }

  /** The lines of some nodes, loaded in order into a table. */
  function LoadNodes(t: Table, slots: Table, ids: seq<NodeId>): Option<Table> {
    if ids == [] then Some(t) else
      match LoadNodes(t, slots, ids[..|ids| - 1])
      case None => None
      case Some(t1) => AddWords(t1, ids[|ids| - 1], Words(Text(BitsOf(slots, ids[|ids| - 1]), |slots|)))
  }

  /** The slots of `slots` whose owner is among `ids`. */
  function OwnedBy(slots: Table, ids: seq<NodeId>): Table {
    seq(|slots|, j requires 0 <= j < |slots| => if slots[j].Some? && slots[j].value in ids then slots[j] else None)
  }

  lemma LoadOne(slots: Table, ids: seq<NodeId>, n: NodeId)
    ensures AddWords(OwnedBy(slots, ids), n, Words(Text(BitsOf(slots, n), |slots|))) == Some(OwnedBy(slots, ids + [n]))
  {
    hide AddWords, RangesText;
    var bits, t := BitsOf(slots, n), OwnedBy(slots, ids);
    var rs := Runs(bits, |slots|);
    RunsCover(bits, |slots|);
    WordsOfRanges(rs);
    AddRanges(t, n, rs, |slots|);
    FilledIsOwned(slots, ids, n, rs);
  }

  lemma FilledIsOwned(slots: Table, ids: seq<NodeId>, n: NodeId, rs: seq<Range>)
    requires Covers(BitsOf(slots, n), |slots|, rs)
    ensures Filled(OwnedBy(slots, ids), n, rs) == OwnedBy(slots, ids + [n])
  {
    hide In, Ordered;
    forall j | 0 <= j < |slots|
      ensures Filled(OwnedBy(slots, ids), n, rs)[j] == OwnedBy(slots, ids + [n])[j]
    {
      assert BitsOf(slots, n)[j] <==> In(rs, j);
    }
  }

  lemma OwnedByNobody(slots: Table, empty: Table)
    requires |empty| == |slots| && forall j | 0 <= j < |empty| :: empty[j].None?
    ensures empty == OwnedBy(slots, [])
  {
  }

  lemma {:induction false} LoadSome(slots: Table, empty: Table, ids: seq<NodeId>)
    requires |empty| == |slots| && forall j | 0 <= j < |empty| :: empty[j].None?
    ensures LoadNodes(empty, slots, ids) == Some(OwnedBy(slots, ids))
  {
    hide OwnedBy, AddWords, Text, Words, BitsOf;
    if ids == [] {
      OwnedByNobody(slots, empty);
    } else {
      var init, n := ids[..|ids| - 1], ids[|ids| - 1];
      LoadSome(slots, empty, init);
      LoadOne(slots, init, n);
      assert ids == init + [n];
    }
  }

  /** The file round trip: loading the printed slots of every owner, in any
      order and however often, into an empty table gives the table back. */
  lemma TableRebuilt(slots: Table, empty: Table, ids: seq<NodeId>)
    requires |empty| == |slots| && forall j | 0 <= j < |empty| :: empty[j].None?
    requires forall j | 0 <= j < |slots| && slots[j].Some? :: slots[j].value in ids
    ensures LoadNodes(empty, slots, ids) == Some(slots)
  {
    LoadSome(slots, empty, ids);
    assert slots == OwnedBy(slots, ids);
  }

  /** The slots of a node as both generators print them: an unfiltered node that
      serves slots has the same text from the pass over all nodes as from its own
      bitmap, and no other node has any. */
  method BothGenerators(slots: Table, hidden: set<NodeId>, n: NodeId) returns (info: map<NodeId, bytes>, own: bytes)
    ensures n in info <==> n !in hidden && Some(n) in slots
    ensures n in info ==> info[n] == own
    ensures n !in info && n !in hidden ==> own == []
    ensures own == Text(BitsOf(slots, n), |slots|)
  {
    info := GenNodesSlotsInfo(slots, hidden);
    own := GenNodeSlots(BitsOf(slots, n));
    if n !in info && n !in hidden {
      TextSame(BitsOf(slots, n), 0, |slots|);
      TextOfNothing(BitsOf(slots, n));
    }
  }
}
