/**
 VLAN-list compression, as the renderer and the gate builder each spell it out
 (orchestrator/renderer.py, orchestrator/gates.py).
 */
module VlanRanges {
  import opened Basics
  import opened Decimal

  datatype Range = Range(lo: nat, hi: nat)

  function RangeText(r: Range): string {
    if r.lo == r.hi then Dec(r.lo) else Dec(r.lo) + "-" + Dec(r.hi)
  }

  ghost predicate Covers(rs: seq<Range>, v: nat) {
    exists i :: 0 <= i < |rs| && rs[i].lo <= v <= rs[i].hi
  }

  /** Ascending ranges with a gap of at least one value between neighbours. */
  ghost predicate Maximal(rs: seq<Range>) {
    && (forall i :: 0 <= i < |rs| ==> rs[i].lo <= rs[i].hi)
    && (forall i, j :: 0 <= i < j < |rs| ==> rs[i].hi + 1 < rs[j].lo)
  }

  ghost predicate SameValues(rs: seq<Range>, values: set<nat>) {
    forall v: nat :: v in values <==> Covers(rs, v)
  }

  function Texts(rs: seq<Range>): (ts: seq<string>)
    ensures |ts| == |rs| && forall i :: 0 <= i < |rs| ==> ts[i] == RangeText(rs[i])
  {
    if rs == [] then [] else [RangeText(rs[0])] + Texts(rs[1..])
  }

  /** The one list of maximal ranges of a set: any two are equal. */
  lemma {:induction false} MaximalRangesAreUnique(a: seq<Range>, b: seq<Range>, values: set<nat>)
    requires Maximal(a) && Maximal(b) && SameValues(a, values) && SameValues(b, values)
    ensures a == b
    decreases |a|
  {
    if a == [] {
      if b != [] { HeadIsCovered(b); }
    } else if b == [] {
      HeadIsCovered(a);
    } else {
      HeadsAgree(a, b, values);
      var rest := set v | v in values && v > a[0].hi;
      TailCovers(a, values, rest);
      TailCovers(b, values, rest);
      MaximalRangesAreUnique(a[1..], b[1..], rest);
      assert a == [a[0]] + a[1..] && b == [b[0]] + b[1..];
    }
  }

  lemma HeadIsCovered(a: seq<Range>)
    requires Maximal(a) && a != []
    ensures Covers(a, a[0].lo)
  {
  }

  lemma HeadsAgree(a: seq<Range>, b: seq<Range>, values: set<nat>)
    requires Maximal(a) && Maximal(b) && SameValues(a, values) && SameValues(b, values)
    requires a != [] && b != []
    ensures a[0] == b[0]
  {
    HeadBelow(a, b, values);
    HeadBelow(b, a, values);
  }

  lemma HeadBelow(a: seq<Range>, b: seq<Range>, values: set<nat>)
    requires Maximal(a) && Maximal(b) && SameValues(a, values) && SameValues(b, values)
    requires a != [] && b != []
    ensures a[0].lo <= b[0].lo
    ensures a[0].lo == b[0].lo ==> b[0].hi <= a[0].hi
  {
    assert Covers(b, b[0].lo);
    assert Covers(a, b[0].lo);
    if a[0].lo == b[0].lo && a[0].hi < b[0].hi {
      var v := a[0].hi + 1;
      assert b[0].lo <= v <= b[0].hi;
      assert Covers(b, v);
      NotCoveredAfterHead(a);
    }
  }

  lemma NotCoveredAfterHead(a: seq<Range>)
    requires Maximal(a) && a != []
    ensures !Covers(a, a[0].hi + 1)
  {
  }

  lemma TailCovers(a: seq<Range>, values: set<nat>, rest: set<nat>)
    requires Maximal(a) && SameValues(a, values) && a != []
    requires rest == set v | v in values && v > a[0].hi
    ensures Maximal(a[1..]) && SameValues(a[1..], rest)
  {
    forall v: nat ensures v in rest <==> Covers(a[1..], v) {
      if v in rest {
        assert Covers(a, v);
        var i :| 0 <= i < |a| && a[i].lo <= v <= a[i].hi;
        assert i > 0;
        assert a[1..][i - 1] == a[i];
      }
      if Covers(a[1..], v) {
        var i :| 0 <= i < |a[1..]| && a[1..][i].lo <= v <= a[1..][i].hi;
        assert a[1..][i] == a[i + 1];
        assert Covers(a, v);
      }
    }
  }

  // ----- Reading a printed list back -----

  predicate Numeral(s: string) { s != "" && AllDigits(s) }

  function ParseRange(s: string): Option<Range> {
    var i := FirstIndex(s, '-');
    if i == |s| then
      if Numeral(s) then Some(Range(Val(s), Val(s))) else None
    else if Numeral(s[..i]) && Numeral(s[i + 1..]) then Some(Range(Val(s[..i]), Val(s[i + 1..])))
    else None
  }

  function ParseRanges(parts: seq<string>): Option<seq<Range>> {
    if parts == [] then Some([])
    else
      match (ParseRange(parts[0]), ParseRanges(parts[1..]))
      case (Some(r), Some(rs)) => Some([r] + rs)
      case _ => None
  }

  /** What a device understands by the printed list. */
  function Parse(text: string): Option<seq<Range>> {
    if text == "" then Some([]) else ParseRanges(Split(text, ','))
  }

  lemma ParseRangeText(r: Range)
    ensures ParseRange(RangeText(r)) == Some(r)
    ensures ',' !in RangeText(r) && RangeText(r) != ""
  {
    DecRoundTrip(r.lo);
    DecRoundTrip(r.hi);
    var s := RangeText(r);
    if r.lo == r.hi {
      FirstIndexAbsent(s, '-');
    } else {
      FirstIndexOfPrefix(Dec(r.lo), '-', Dec(r.hi));
      assert s == Dec(r.lo) + ['-'] + Dec(r.hi);
      assert s[..|Dec(r.lo)|] == Dec(r.lo) && s[|Dec(r.lo)| + 1..] == Dec(r.hi);
    }
  }

  lemma {:induction false} ParseTexts(rs: seq<Range>, parts: seq<string>)
    requires |parts| == |rs| && forall i :: 0 <= i < |rs| ==> parts[i] == RangeText(rs[i])
    ensures ParseRanges(parts) == Some(rs)
    decreases |rs|
  {
    if rs != [] {
      ParseRangeText(rs[0]);
      ParseTexts(rs[1..], parts[1..]);
      assert rs == [rs[0]] + rs[1..];
    }
  }

  /** The printed list determines the ranges: printing loses nothing. */
  lemma {:induction false} ParseUndoesPrint(rs: seq<Range>)
    ensures Parse(Join(Texts(rs), ',')) == Some(rs)
  {
    var parts := Texts(rs);
    forall i | 0 <= i < |rs| ensures parts[i] == RangeText(rs[i]) && ',' !in parts[i] && parts[i] != "" {
      ParseRangeText(rs[i]);
    }
    if rs != [] {
      SplitJoin(parts, ',');
      ParseTexts(rs, parts);
      assert |Join(parts, ',')| > 0;
    }
  }

  // ----- The loops -----

  predicate StrictlyAscending(s: seq<nat>) {
    forall i, j :: 0 <= i < j < |s| ==> s[i] < s[j]
  }

  predicate IsMinimum(m: nat, s: set<nat>) {
    m in s && forall y :: y in s ==> m <= y
  }

  lemma {:induction false} MinimumExists(s: set<nat>)
    requires s != {}
    ensures exists m :: IsMinimum(m, s)
    decreases s
  {
    var x :| x in s;
    if s == {x} {
      assert IsMinimum(x, s);
    } else {
      MinimumExists(s - {x});
      var m :| IsMinimum(m, s - {x});
      assert forall y :: y in s ==> y == x || y in s - {x};
      assert IsMinimum(if x <= m then x else m, s);
    }
  }

  function SetOf(values: seq<nat>): set<nat> { set v | v in values }

  /** `sorted(set(values))` */
  function SortedSet(s: set<nat>): (r: seq<nat>)
    ensures StrictlyAscending(r)
    ensures forall v :: v in r <==> v in s
  {
    if s == {} then [] else
      MinimumExists(s);
      var m :| IsMinimum(m, s);
      [m] + SortedSet(s - {m})
  }

  /** The printed text is exactly the maximal ranges of `values`, and reads back to `values`. */
  ghost predicate PrintsExactly(text: string, values: set<nat>) {
    exists rs :: && Maximal(rs) && SameValues(rs, values)
                 && text == Join(Texts(rs), ',') && Parse(text) == Some(rs)
  }

  /** Two texts that print the same set exactly are the same string. */
  lemma ExactPrintIsUnique(a: string, b: string, values: set<nat>)
    requires PrintsExactly(a, values) && PrintsExactly(b, values)
    ensures a == b
  {
    var ra :| Maximal(ra) && SameValues(ra, values) && a == Join(Texts(ra), ',') && Parse(a) == Some(ra);
    var rb :| Maximal(rb) && SameValues(rb, values) && b == Join(Texts(rb), ',') && Parse(b) == Some(rb);
    MaximalRangesAreUnique(ra, rb, values);
  }

  /** Index of the last value of the run of consecutive values that starts at `i`. */
  function RunStop(ordered: seq<nat>, i: nat): (j: nat)
    requires i < |ordered|
    ensures i <= j < |ordered|
    decreases |ordered| - i
  {
    if i + 1 < |ordered| && ordered[i + 1] == ordered[i] + 1 then RunStop(ordered, i + 1) else i
  }

  function RangesFrom(ordered: seq<nat>, i: nat): (rs: seq<Range>)
    requires i <= |ordered|
    decreases |ordered| - i
  {
    if i == |ordered| then []
    else
      var j := RunStop(ordered, i);
      [Range(ordered[i], ordered[j])] + RangesFrom(ordered, j + 1)
  }

  lemma {:induction false} RunIsConsecutive(ordered: seq<nat>, i: nat)
    requires i < |ordered|
    ensures var j := RunStop(ordered, i);
            && (forall k :: i <= k <= j ==> ordered[k] == ordered[i] + (k - i))
            && (j + 1 < |ordered| ==> ordered[j + 1] != ordered[j] + 1)
    decreases |ordered| - i
  {
    if i + 1 < |ordered| && ordered[i + 1] == ordered[i] + 1 {
      RunIsConsecutive(ordered, i + 1);
    }
  }

  /** The runs cover exactly the values they came from. */
  lemma {:induction false} RunsCover(ordered: seq<nat>, i: nat, v: nat)
    requires i <= |ordered|
    ensures v in ordered[i..] <==> Covers(RangesFrom(ordered, i), v)
    decreases |ordered| - i
  {
    if i < |ordered| {
      var j := RunStop(ordered, i);
      RunIsConsecutive(ordered, i);
      RunsCover(ordered, j + 1, v);
      assert ordered[i..] == ordered[i..j + 1] + ordered[j + 1..];
      CoversCons(Range(ordered[i], ordered[j]), RangesFrom(ordered, j + 1), v);
      RunMembers(ordered, i, j, v);
    } else {
      assert ordered[i..] == [];
    }
  }

  /** Consecutive runs leave a gap between them. */
  lemma {:induction false} RunsAreMaximal(ordered: seq<nat>, i: nat)
    requires i <= |ordered| && StrictlyAscending(ordered)
    ensures var rs := RangesFrom(ordered, i); Maximal(rs) && (i < |ordered| ==> rs != [] && rs[0].lo == ordered[i])
    decreases |ordered| - i
  {
    if i < |ordered| {
      var j := RunStop(ordered, i);
      RunIsConsecutive(ordered, i);
      RunsAreMaximal(ordered, j + 1);
      assert j + 1 < |ordered| ==> ordered[j] < ordered[j + 1];
      MaximalCons(Range(ordered[i], ordered[j]), RangesFrom(ordered, j + 1));
    }
  }

  lemma MaximalCons(r: Range, tail: seq<Range>)
    requires Maximal(tail) && r.lo <= r.hi && (tail != [] ==> r.hi + 1 < tail[0].lo)
    ensures Maximal([r] + tail)
  {
    var rs := [r] + tail;
    forall i, j | 0 <= i < j < |rs| ensures rs[i].hi + 1 < rs[j].lo {
      assert rs[j] == tail[j - 1];
      if i > 0 { assert rs[i] == tail[i - 1]; }
    }
  }

  lemma CoversCons(r: Range, tail: seq<Range>, v: nat)
    ensures Covers([r] + tail, v) <==> (r.lo <= v <= r.hi || Covers(tail, v))
  {
    var rs := [r] + tail;
    if Covers(rs, v) {
      var i :| 0 <= i < |rs| && rs[i].lo <= v <= rs[i].hi;
      if i > 0 { assert tail[i - 1] == rs[i]; }
    }
    if Covers(tail, v) {
      var i :| 0 <= i < |tail| && tail[i].lo <= v <= tail[i].hi;
      assert rs[i + 1] == tail[i];
    }
    assert rs[0] == r;
  }

  lemma RunMembers(ordered: seq<nat>, i: nat, j: nat, v: nat)
    requires i <= j < |ordered| && forall k :: i <= k <= j ==> ordered[k] == ordered[i] + (k - i)
    ensures v in ordered[i..j + 1] <==> ordered[i] <= v <= ordered[j]
  {
    if ordered[i] <= v <= ordered[j] {
      var k := i + (v - ordered[i]);
      assert ordered[i..j + 1][k - i] == ordered[k];
    }
  }

  /** The printed text of the runs of a sorted list prints its values exactly. */
  lemma RunsPrintExactly(ordered: seq<nat>, values: set<nat>)
    requires StrictlyAscending(ordered) && forall v :: v in ordered <==> v in values
    ensures PrintsExactly(Join(Texts(RangesFrom(ordered, 0)), ','), values)
  {
    var rs := RangesFrom(ordered, 0);
    RunsAreMaximal(ordered, 0);
    ParseUndoesPrint(rs);
    assert ordered[0..] == ordered;
    forall v: nat ensures v in values <==> Covers(rs, v) { RunsCover(ordered, 0, v); }
  }

  /** The renderer's loops. */
  method CollectRanges(ordered: seq<nat>) returns (ranges: seq<Range>)
    ensures ranges == RangesFrom(ordered, 0)
  {
    ranges := [];
    var index := 0;
    while index < |ordered|
      invariant 0 <= index <= |ordered|
      invariant ranges + RangesFrom(ordered, index) == RangesFrom(ordered, 0)
    {
      ghost var first := index;
      var start := ordered[index];
      var end := start;
      while index + 1 < |ordered| && ordered[index + 1] == end + 1
        invariant first <= index < |ordered| && end == ordered[index]
        invariant RunStop(ordered, first) == RunStop(ordered, index)
      {
        index := index + 1;
        end := ordered[index];
      }
      ghost var tail := RangesFrom(ordered, index + 1);
      assert RangesFrom(ordered, first) == [Range(start, end)] + tail;
      assert (ranges + [Range(start, end)]) + tail == ranges + ([Range(start, end)] + tail);
      ranges := ranges + [Range(start, end)];
      index := index + 1;
    }
  }

  method CompressIntegerRanges(values: seq<nat>) returns (text: string)
    ensures PrintsExactly(text, SetOf(values))
  {
    var ordered := SortedSet(SetOf(values));
    var ranges := CollectRanges(ordered);
    RunsPrintExactly(ordered, SetOf(values));
    text := Join(Texts(ranges), ',');
  }

  /** The gate builder's copy of the loops. */
  method CollectEnforcedRanges(vlanIds: seq<nat>) returns (ranges: seq<Range>)
    ensures ranges == RangesFrom(vlanIds, 0)
  {
    ranges := [];
    var rangeIndex := 0;
    while rangeIndex < |vlanIds|
      invariant 0 <= rangeIndex <= |vlanIds|
      invariant ranges + RangesFrom(vlanIds, rangeIndex) == RangesFrom(vlanIds, 0)
    {
      ghost var first := rangeIndex;
      var start := vlanIds[rangeIndex];
      var end := start;
      while rangeIndex + 1 < |vlanIds| && vlanIds[rangeIndex + 1] == end + 1
        invariant first <= rangeIndex < |vlanIds| && end == vlanIds[rangeIndex]
        invariant RunStop(vlanIds, first) == RunStop(vlanIds, rangeIndex)
      {
        rangeIndex := rangeIndex + 1;
        end := vlanIds[rangeIndex];
      }
      ghost var tail := RangesFrom(vlanIds, rangeIndex + 1);
      assert RangesFrom(vlanIds, first) == [Range(start, end)] + tail;
      assert (ranges + [Range(start, end)]) + tail == ranges + ([Range(start, end)] + tail);
      ranges := ranges + [Range(start, end)];
      rangeIndex := rangeIndex + 1;
    }
  }

  /**
   The VLAN list that the enforcement gate expects to read back.  With
   `ExactPrintIsUnique`, it is the string that the renderer configures.
   */
  method EnforcementVlanList(enforcementVlanIds: seq<nat>) returns (expected: string)
    ensures PrintsExactly(expected, SetOf(enforcementVlanIds))
  {
    var vlanIds := SortedSet(SetOf(enforcementVlanIds));
    var ranges := CollectEnforcedRanges(vlanIds);
    RunsPrintExactly(vlanIds, SetOf(enforcementVlanIds));
    expected := Join(Texts(ranges), ',');
  }
}
