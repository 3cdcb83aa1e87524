/** Half-open byte ranges and the algebra the authority diff computes with.
    The meaning of a list of ranges is the finite set of bytes it covers; the
    specification of every operation is `Runs` of that set, its one canonical
    list. */
module Intervals {
  import opened Orders

  /** Bytes `start <= x < end`; empty when `end <= start`. */
  datatype Interval = Interval(start: nat, end: nat)

  ghost predicate Within(i: Interval, x: nat) {
    i.start <= x < i.end
  }

  ghost function Span(i: Interval): set<nat> {
    set x: nat | x < i.end && Within(i, x)
  }

  /** The bytes a list covers. */
  ghost function Bytes(iv: seq<Interval>): set<nat> {
    if iv == [] then {} else Bytes(iv[..|iv| - 1]) + Span(iv[|iv| - 1])
  }

  /** Nonempty ranges in order, with a gap between neighbours. */
  ghost predicate Canonical(iv: seq<Interval>) {
    iv == [] || (
      var init, last := iv[..|iv| - 1], iv[|iv| - 1];
      && Canonical(init)
      && last.start < last.end
      && (init != [] ==> init[|init| - 1].end < last.start))
  }

  // -------------------------------------------------------------------------
  // Membership.
  // -------------------------------------------------------------------------

  lemma {:induction false} Covers(iv: seq<Interval>, k: nat, x: nat)
    requires k < |iv| && x in Span(iv[k])
    ensures x in Bytes(iv)
  {
    if k < |iv| - 1 { Covers(iv[..|iv| - 1], k, x); }
  }

  lemma {:induction false} Coverer(iv: seq<Interval>, x: nat) returns (k: nat)
    requires x in Bytes(iv)
    ensures k < |iv| && x in Span(iv[k])
  {
    if x in Span(iv[|iv| - 1]) { k := |iv| - 1; } else { k := Coverer(iv[..|iv| - 1], x); }
  }

  /** Dropping empty ranges and reordering the others covers the same bytes. */
  lemma BytesSameMembers(a: seq<Interval>, b: seq<Interval>)
    requires forall i :: i in a && i.start < i.end ==> i in b
    ensures Bytes(a) <= Bytes(b)
  {
    forall x | x in Bytes(a) ensures x in Bytes(b) {
      var k := Coverer(a, x);
      assert a[k] in a;
      var j :| 0 <= j < |b| && b[j] == a[k];
      Covers(b, j, x);
    }
  }

  lemma BytesSnoc(iv: seq<Interval>, i: Interval)
    ensures Bytes(iv + [i]) == Bytes(iv) + Span(i)
  {
    assert (iv + [i])[..|iv|] == iv;
  }

  // -------------------------------------------------------------------------
  // Canonical lists.
  // -------------------------------------------------------------------------

  lemma {:induction false} CanonicalAt(iv: seq<Interval>, k: nat)
    requires Canonical(iv) && k < |iv|
    ensures iv[k].start < iv[k].end <= iv[|iv| - 1].end
    ensures k < |iv| - 1 ==> iv[k].end < iv[|iv| - 1].start
  {
    if k < |iv| - 1 { CanonicalAt(iv[..|iv| - 1], k); }
  }

  lemma {:induction false} CanonicalOrder(iv: seq<Interval>, j: nat, k: nat)
    requires Canonical(iv) && j < k < |iv|
    ensures iv[j].start < iv[j].end < iv[k].start
  {
    if k < |iv| - 1 { CanonicalOrder(iv[..|iv| - 1], j, k); } else { CanonicalAt(iv, j); }
  }

  /** Every covered byte is in the last range or strictly below its gap. */
  lemma CanonicalCeiling(iv: seq<Interval>, x: nat)
    requires Canonical(iv) && iv != [] && x in Bytes(iv)
    ensures x < iv[|iv| - 1].end
    ensures x !in Span(iv[|iv| - 1]) ==> x + 1 < iv[|iv| - 1].start
  {
    var k := Coverer(iv, x);
    CanonicalAt(iv, k);
  }

  /** A range starting past the last one is appended. */
  lemma Append(iv: seq<Interval>, i: Interval)
    requires Canonical(iv) && i.start < i.end
    requires iv != [] ==> iv[|iv| - 1].end < i.start
    ensures Canonical(iv + [i])
    ensures Bytes(iv + [i]) == Bytes(iv) + Span(i)
  {
    BytesSnoc(iv, i);
    assert (iv + [i])[..|iv|] == iv;
  }

  lemma JoinSpans(i: Interval, j: Interval, both: Interval)
    requires i.start < i.end && i.start <= j.start <= i.end && j.start < j.end
    requires both.start == i.start && both.end == if i.end < j.end then j.end else i.end
    ensures Span(both) == Span(i) + Span(j)
  {}

  lemma Regroup<T>(a: set<T>, b: set<T>, c: set<T>)
    ensures a + (b + c) == (a + b) + c
  {}

  /** A range starting inside or next to the last one extends it. */
  lemma Extend(iv: seq<Interval>, i: Interval, merged: Interval)
    requires Canonical(iv) && iv != [] && i.start < i.end
    requires var last := iv[|iv| - 1];
      && last.start <= i.start <= last.end
      && merged == Interval(last.start, if last.end < i.end then i.end else last.end)
    ensures Canonical(iv[..|iv| - 1] + [merged])
    ensures Bytes(iv[..|iv| - 1] + [merged]) == Bytes(iv) + Span(i)
  {
    var init, last := iv[..|iv| - 1], iv[|iv| - 1];
    Append(init, merged);
    JoinSpans(last, i, merged);
    Regroup(Bytes(init), Span(last), Span(i));
  }

  /** Two canonical lists of the same bytes are the same list. */
  lemma {:induction false} CanonicalUnique(a: seq<Interval>, b: seq<Interval>)
    requires Canonical(a) && Canonical(b) && Bytes(a) == Bytes(b)
    ensures a == b
  {
    if a != [] { Covers(a, |a| - 1, a[|a| - 1].end - 1); }
    if b != [] { Covers(b, |b| - 1, b[|b| - 1].end - 1); }
    if a != [] && b != [] {
      var x, y := a[|a| - 1], b[|b| - 1];
      CanonicalCeiling(b, x.end - 1);
      CanonicalCeiling(a, y.end - 1);
      StartsAgree(a, b);
      StartsAgree(b, a);
      BelowLast(a);
      BelowLast(b);
      CanonicalUnique(a[..|a| - 1], b[..|b| - 1]);
      assert a == a[..|a| - 1] + [x] && b == b[..|b| - 1] + [y];
    }
  }

  lemma StartsAgree(a: seq<Interval>, b: seq<Interval>)
    requires Canonical(a) && Canonical(b) && a != [] && b != [] && Bytes(a) == Bytes(b)
    requires a[|a| - 1].end == b[|b| - 1].end
    ensures b[|b| - 1].start <= a[|a| - 1].start
  {
    var x, y := a[|a| - 1], b[|b| - 1];
    if x.start < y.start {
      Covers(a, |a| - 1, y.start - 1);
      CanonicalCeiling(b, y.start - 1);
    }
  }

  lemma BelowLast(iv: seq<Interval>)
    requires Canonical(iv) && iv != []
    ensures Bytes(iv[..|iv| - 1]) == Bytes(iv) - Span(iv[|iv| - 1])
  {
    var init, last := iv[..|iv| - 1], iv[|iv| - 1];
    forall x | x in Bytes(init) ensures x !in Span(last) {
      CanonicalCeiling(init, x);
    }
  }

  // -------------------------------------------------------------------------
  // The canonical list of a set.
  // -------------------------------------------------------------------------

  /** The canonical list of a finite set of bytes. */
  ghost function Runs(s: set<nat>): (iv: seq<Interval>)
    ensures Canonical(iv) && Bytes(iv) == s
  {
    assert exists iv :: Canonical(iv) && Bytes(iv) == s by { var iv := RunsExist(s); }
    var iv :| Canonical(iv) && Bytes(iv) == s;
    iv
  }

  ghost function Greatest(s: set<nat>): (m: nat)
    requires s != {}
    ensures m in s && forall x :: x in s ==> x <= m
  {
    var x :| x in s;
    assert forall y :: y in s ==> y == x || y in s - {x};
    if s - {x} == {} then x
    else
      var m := Greatest(s - {x});
      if m < x then x else m
  }

  /** Where the run of members that ends just before `e` begins. */
  ghost function RunStart(s: set<nat>, e: nat): (b: nat)
    ensures b <= e && (b > 0 ==> b - 1 !in s)
    ensures forall x :: b <= x < e ==> x in s
  {
    if e > 0 && e - 1 in s then RunStart(s, e - 1) else e
  }

  /** Every finite set has one: the runs of the rest, then its last run. */
  lemma {:induction false} RunsExist(s: set<nat>) returns (iv: seq<Interval>)
    ensures Canonical(iv) && Bytes(iv) == s
  {
    if s == {} {
      iv := [];
    } else {
      var m := Greatest(s);
      var last := Interval(RunStart(s, m + 1), m + 1);
      assert last.start <= m && m in Span(last) && Span(last) <= s;
      var rest := RunsExist(s - Span(last));
      if rest != [] {
        var x := rest[|rest| - 1].end - 1;
        Covers(rest, |rest| - 1, x);
        assert x in s && x !in Span(last) && x + 1 < last.start;
      }
      Append(rest, last);
      iv := rest + [last];
    }
  }

  /** A canonical list is `Runs` of what it covers. */
  lemma RunsOf(iv: seq<Interval>)
    requires Canonical(iv)
    ensures Runs(Bytes(iv)) == iv
  {
    CanonicalUnique(Runs(Bytes(iv)), iv);
  }

  lemma RunsEmpty(s: set<nat>)
    ensures Runs(s) == [] <==> s == {}
  {
    var iv := Runs(s);
    if iv != [] {
      CanonicalAt(iv, 0);
      Covers(iv, 0, iv[0].start);
    }
  }

  /** Subtraction is empty exactly on inclusion. */
  lemma SubtractEmpty(s: set<nat>, t: set<nat>)
    ensures Runs(s - t) == [] <==> s <= t
  {
    RunsEmpty(s - t);
    Inclusion(s, t);
  }

  lemma Inclusion<T>(s: set<T>, t: set<T>)
    ensures s - t == {} <==> s <= t
  {
    if s - t == {} {
      forall x | x in s ensures x in t { assert x !in s - t; }
    }
  }

  // -------------------------------------------------------------------------
  // The three operations, as loops over their inputs.
  // -------------------------------------------------------------------------

  function StartOrder(): (Interval, Interval) -> bool {
    (a: Interval, b: Interval) => a.start < b.start || (a.start == b.start && a.end <= b.end)
  }

  lemma StartOrderTotal()
    ensures TotalOrder(StartOrder())
  {}

  function DropEmpty(iv: seq<Interval>): (r: seq<Interval>)
    ensures forall i :: i in r <==> i in iv && i.start < i.end
  {
    if iv == [] then []
    else
      assert iv == [iv[0]] + iv[1..];
      (if iv[0].start < iv[0].end then [iv[0]] else []) + DropEmpty(iv[1..])
  }

  /** `retain` then `sort_unstable`. */
  method SortRanges(iv: seq<Interval>) returns (r: seq<Interval>)
    ensures Bytes(r) == Bytes(iv)
    ensures forall i :: i in r ==> i.start < i.end
    ensures forall k :: 0 < k < |r| ==> r[k - 1].start <= r[k].start
  {
    r := Sort(DropEmpty(iv), StartOrder());
    StartOrderTotal();
    assert forall i :: i in r <==> i in DropEmpty(iv) by {
      forall i ensures i in r <==> i in DropEmpty(iv) { assert i in r <==> i in multiset(r); }
    }
    BytesSameMembers(r, iv);
    BytesSameMembers(iv, r);
    assert forall k :: 0 < k < |r| ==> StartOrder()(r[k - 1], r[k]);
  }

  /** The next range in start order: merged into the last one it touches, else appended. */
  method MergeNext(out: seq<Interval>, i: Interval) returns (next: seq<Interval>)
    requires Canonical(out) && i.start < i.end
    requires out != [] ==> out[|out| - 1].start <= i.start
    ensures Canonical(next) && Bytes(next) == Bytes(out) + Span(i)
    ensures next != [] && next[|next| - 1].start <= i.start
  {
    hide Bytes, Canonical, Span;
    if out != [] && i.start <= out[|out| - 1].end {
      var last := out[|out| - 1];
      var merged := Interval(last.start, if last.end < i.end then i.end else last.end);
      Extend(out, i, merged);
      next := out[..|out| - 1] + [merged];
    } else {
      Append(out, i);
      next := out + [i];
    }
  }

  method Normalize(iv: seq<Interval>) returns (out: seq<Interval>)
    ensures out == Runs(Bytes(iv))
  {
    var sorted := SortRanges(iv);
    out := [];
    for k := 0 to |sorted|
      invariant Canonical(out)
      invariant Bytes(out) == Bytes(sorted[..k])
      invariant out != [] ==> k > 0 && out[|out| - 1].start <= sorted[k - 1].start
    {
      hide Bytes, Canonical, Span;
      assert sorted[k] in sorted;
      assert sorted[..k + 1] == sorted[..k] + [sorted[k]];
      BytesSnoc(sorted[..k], sorted[k]);
      out := MergeNext(out, sorted[k]);
    }
    assert sorted[..|sorted|] == sorted;
    RunsOf(out);
  }

  /** Bytes of `a` below `start` that `ys` does not cover. */
  ghost function Kept(a: Interval, start: nat, ys: seq<Interval>): set<nat> {
    set x | x in Span(a) && x < start && x !in Bytes(ys)
  }

  /** The first `j` ranges have nothing left in `[start, end)`. */
  ghost predicate Passed(ys: seq<Interval>, j: nat, start: nat, end: nat) {
    forall i :: 0 <= i < j && i < |ys| ==> ys[i].end <= start || end <= ys[i].start
  }

  /** Bytes between `start` and the range under the cursor are covered by no range. */
  lemma NotCovered(ys: seq<Interval>, j: nat, start: nat, end: nat, x: nat)
    requires Canonical(ys) && j <= |ys| && Passed(ys, j, start, end)
    requires start <= x < end && (j < |ys| ==> x < ys[j].start)
    ensures x !in Bytes(ys)
  {
    if x in Bytes(ys) {
      var k := Coverer(ys, x);
      if j < k { CanonicalOrder(ys, j, k); }
    }
  }

  lemma KeptStep(a: Interval, start: nat, ys: seq<Interval>, j: nat)
    requires Canonical(ys) && j < |ys| && a.start <= start < a.end && Passed(ys, j, start, a.end)
    requires start < ys[j].end && ys[j].start < a.end
    ensures Passed(ys, j + 1, ys[j].end, a.end)
    ensures Kept(a, ys[j].end, ys) == Kept(a, start, ys) + Span(Interval(start, ys[j].start))
  {
    var y := ys[j];
    forall x | x in Span(a) && start <= x < y.end
      ensures x !in Bytes(ys) <==> x < y.start
    {
      if x < y.start {
        NotCovered(ys, j, start, a.end, x);
      } else {
        Covers(ys, j, x);
      }
    }
  }

  /** One range of the minuend after all of the subtrahend has passed by. */
  lemma LastPiece(a: Interval, start: nat, ys: seq<Interval>)
    requires Canonical(ys) && a.start <= start && (start < a.end ==> Passed(ys, |ys|, start, a.end))
    ensures Span(a) - Bytes(ys) == Kept(a, start, ys) + Span(Interval(start, a.end))
  {
    forall x | start <= x < a.end ensures x !in Bytes(ys) {
      NotCovered(ys, |ys|, start, a.end, x);
    }
  }

  lemma EmptySpan(i: Interval)
    ensures i.end <= i.start ==> Span(i) == {}
  {}

  function Piece(start: nat, end: nat): seq<Interval> {
    if start < end then [Interval(start, end)] else []
  }

  /** Pushing a piece, when it is not empty. */
  lemma PushPiece(out: seq<Interval>, start: nat, end: nat, before: set<nat>, kept: set<nat>)
    requires Canonical(out) && (out != [] ==> out[|out| - 1].end < start)
    requires Bytes(out) == before + kept
    ensures Canonical(out + Piece(start, end))
    ensures Bytes(out + Piece(start, end)) == before + (kept + Span(Interval(start, end)))
  {
    EmptySpan(Interval(start, end));
    Regroup(before, kept, Span(Interval(start, end)));
    if start < end { Append(out, Interval(start, end)); } else { assert out + [] == out; }
  }

  lemma MinusGrows<T>(a: set<T>, b: set<T>, s: set<T>)
    ensures (a + s) - b == (a - b) + (s - b)
  {}

  /** What one range of the minuend leaves, pushed onto `out`. */
  method SubtractFrom(a: Interval, ys: seq<Interval>, before: seq<Interval>) returns (out: seq<Interval>)
    requires Canonical(ys) && Canonical(before) && a.start < a.end
    requires before != [] ==> before[|before| - 1].end < a.start
    ensures Canonical(out) && (out != [] ==> out[|out| - 1].end <= a.end)
    ensures Bytes(out) == Bytes(before) + (Span(a) - Bytes(ys))
  {
    out := before;
    var start := a.start;
    var j := 0;
    assert Bytes(out) == Bytes(before) + Kept(a, start, ys);
    hide Bytes, Canonical, Kept, Span;
    while j < |ys| && start < a.end
      invariant 0 <= j <= |ys| && a.start <= start
      invariant Canonical(out)
      invariant out != [] ==> out[|out| - 1].end <= a.end && out[|out| - 1].end < start
      invariant Bytes(out) == Bytes(before) + Kept(a, start, ys)
      invariant start < a.end ==> Passed(ys, j, start, a.end)
      decreases |ys| - j
    {
      var y := ys[j];
      CanonicalAt(ys, j);
      if start < y.end && y.start < a.end {
        KeptStep(a, start, ys, j);
        PushPiece(out, start, y.start, Bytes(before), Kept(a, start, ys));
        ghost var next := out + Piece(start, y.start);
        if start < y.start {
          out := out + [Interval(start, y.start)];
        }
        assert out == next;
        start := y.end;
      }
      j := j + 1;
    }
    LastPiece(a, start, ys);
    PushPiece(out, start, a.end, Bytes(before), Kept(a, start, ys));
    ghost var whole := out + Piece(start, a.end);
    if start < a.end {
      out := out + [Interval(start, a.end)];
    }
    assert out == whole;
  }

  method Subtract(a: seq<Interval>, b: seq<Interval>) returns (out: seq<Interval>)
    ensures out == Runs(Bytes(a) - Bytes(b))
  {
    var ys := Normalize(b);
    var xs := Normalize(a);
    out := [];
    for k := 0 to |xs|
      invariant Canonical(out)
      invariant Bytes(out) == Bytes(xs[..k]) - Bytes(ys)
      invariant out != [] ==> k > 0 && out[|out| - 1].end <= xs[k - 1].end
    {
      CanonicalAt(xs, k);
      if k > 0 { CanonicalOrder(xs, k - 1, k); }
      out := SubtractFrom(xs[k], ys, out);
      BytesSnoc(xs[..k], xs[k]);
      MinusGrows(Bytes(xs[..k]), Bytes(ys), Span(xs[k]));
      assert xs[..k + 1] == xs[..k] + [xs[k]];
    }
    assert xs[..|xs|] == xs;
    RunsOf(out);
  }

  lemma MeetGrows<T>(a: set<T>, b: set<T>, s: set<T>)
    ensures a * (b + s) == a * b + a * s
    ensures (b + s) * a == b * a + s * a
  {}

  lemma MeetSpans(i: Interval, j: Interval, both: Interval)
    requires both.start == if i.start > j.start then i.start else j.start
    requires both.end == if i.end < j.end then i.end else j.end
    ensures Span(both) == Span(i) * Span(j)
  {}

  method Intersect(a: seq<Interval>, b: seq<Interval>) returns (out: seq<Interval>)
    ensures out == Runs(Bytes(a) * Bytes(b))
  {
    out := [];
    for k := 0 to |a|
      invariant Bytes(out) == Bytes(a[..k]) * Bytes(b)
    {
      ghost var before := Bytes(out);
      for j := 0 to |b|
        invariant Bytes(out) == before + Span(a[k]) * Bytes(b[..j])
      {
        hide Bytes, Span;
        var both := Interval(if a[k].start > b[j].start then a[k].start else b[j].start,
                             if a[k].end < b[j].end then a[k].end else b[j].end);
        BytesSnoc(b[..j], b[j]);
        assert b[..j + 1] == b[..j] + [b[j]];
        MeetSpans(a[k], b[j], both);
        MeetGrows(Span(a[k]), Bytes(b[..j]), Span(b[j]));
        Regroup(before, Span(a[k]) * Bytes(b[..j]), Span(both));
        EmptySpan(both);
        if both.start < both.end {
          BytesSnoc(out, both);
          out := out + [both];
        }
      }
      assert b[..|b|] == b;
      BytesSnoc(a[..k], a[k]);
      MeetGrows(Bytes(b), Bytes(a[..k]), Span(a[k]));
      assert a[..k + 1] == a[..k] + [a[k]];
    }
    assert a[..|a|] == a;
    out := Normalize(out);
  }
}
