/** Total orders, and what "sort, then drop repeats" means: the one strictly
    increasing list of a finite set. Names, rule texts, map keys and findings
    are all put in order this way. */
module Orders {
  datatype Option<+T> = None | Some(value: T) {
    predicate IsFailure() { None? }

    function PropagateFailure<U>(): Option<U>
      requires None?
    {
      None
    }

    function Extract(): T
      requires Some?
    {
      value
    }
  }

  datatype Result<+T, +E> = Ok(value: T) | Err(error: E) {
    predicate IsFailure() { Err? }

    function PropagateFailure<U>(): Result<U, E>
      requires Err?
    {
      Err(error)
    }

    function Extract(): T
      requires Ok?
    {
      value
    }
  }

  ghost predicate TotalOrder<T(!new)>(le: (T, T) -> bool) {
    && (forall a, b :: le(a, b) || le(b, a))
    && (forall a, b :: le(a, b) && le(b, a) ==> a == b)
    && (forall a, b, c :: le(a, b) && le(b, c) ==> le(a, c))
  }

  ghost function Elements<T>(xs: seq<T>): set<T> {
    set x | x in xs
  }

  ghost predicate Sorted<T(!new)>(xs: seq<T>, le: (T, T) -> bool) {
    forall i, j :: 0 <= i < j < |xs| ==> le(xs[i], xs[j])
  }

  /** Strictly increasing: sorted without repeats. */
  ghost predicate Increasing<T(!new)>(xs: seq<T>, le: (T, T) -> bool) {
    forall i, j :: 0 <= i < j < |xs| ==> le(xs[i], xs[j]) && xs[i] != xs[j]
  }

  function Insert<T(!new)>(x: T, xs: seq<T>, le: (T, T) -> bool): (r: seq<T>)
    ensures multiset(r) == multiset(xs) + multiset{x}
  {
    if xs == [] then [x]
    else if le(x, xs[0]) then assert xs == [xs[0]] + xs[1..]; [x] + xs
    else assert xs == [xs[0]] + xs[1..]; [xs[0]] + Insert(x, xs[1..], le)
  }

  /** The standard library's sort, as the sorted rearrangement of its input. */
  function Sort<T(!new)>(xs: seq<T>, le: (T, T) -> bool): (r: seq<T>)
    ensures multiset(r) == multiset(xs)
    ensures TotalOrder(le) ==> Sorted(r, le)
  {
    if xs == [] then []
    else
      assert xs == [xs[0]] + xs[1..];
      var rest := Sort(xs[1..], le);
      assert TotalOrder(le) ==> Sorted(Insert(xs[0], rest, le), le) by {
        if TotalOrder(le) { InsertSorted(xs[0], rest, le); }
      }
      Insert(xs[0], rest, le)
  }

  lemma {:induction false} InsertSorted<T(!new)>(x: T, xs: seq<T>, le: (T, T) -> bool)
    requires TotalOrder(le) && Sorted(xs, le)
    ensures Sorted(Insert(x, xs, le), le)
  {
    if xs != [] && !le(x, xs[0]) {
      InsertSorted(x, xs[1..], le);
      var r := Insert(x, xs[1..], le);
      forall j | 0 <= j < |r| ensures le(xs[0], r[j]) {
        assert r[j] in multiset(r);
        assert r[j] == x || r[j] in xs[1..];
      }
    }
  }

  /** `Vec::dedup`: drop every element equal to the one kept before it. */
  function Dedup<T(==, !new)>(xs: seq<T>): (r: seq<T>)
    ensures xs != [] ==> r != [] && r[|r| - 1] == xs[|xs| - 1]
    ensures forall x :: x in r <==> x in xs
  {
    if |xs| <= 1 then xs
    else
      var last := |xs| - 1;
      var r := Dedup(xs[..last]);
      assert xs == xs[..last] + [xs[last]];
      if xs[last] == xs[last - 1] then r else r + [xs[last]]
  }

  lemma {:induction false} DedupIncreasing<T(!new)>(xs: seq<T>, le: (T, T) -> bool)
    requires TotalOrder(le) && Sorted(xs, le)
    ensures Increasing(Dedup(xs), le)
  {
    if |xs| > 1 {
      var last := |xs| - 1;
      DedupIncreasing(xs[..last], le);
      var r := Dedup(xs[..last]);
      if xs[last] != xs[last - 1] {
        forall i | 0 <= i < |r| ensures le(r[i], xs[last]) && r[i] != xs[last] {
          assert r[i] in xs[..last];
          var k :| 0 <= k < last && xs[k] == r[i];
          assert le(xs[k], xs[last - 1]) by { assert k == last - 1 || k < last - 1; }
          assert le(xs[last - 1], xs[last]);
        }
      }
    }
  }

  /** A finite set has at most one strictly increasing listing. */
  lemma {:induction false} IncreasingUnique<T(!new)>(a: seq<T>, b: seq<T>, le: (T, T) -> bool)
    requires TotalOrder(le) && Increasing(a, le) && Increasing(b, le)
    requires Elements(a) == Elements(b)
    ensures a == b
  {
    assert a != [] ==> a[0] in Elements(a);
    assert b != [] ==> b[0] in Elements(b);
    if a != [] {
      assert b != [];
      assert a[0] == b[0] by {
        assert a[0] in b && b[0] in a;
      }
      forall x ensures x in Elements(a[1..]) <==> x in Elements(b[1..]) {
        assert x in a[1..] <==> x in a && x != a[0];
        assert x in b[1..] <==> x in b && x != b[0];
        assert x in Elements(a) <==> x in Elements(b);
      }
      IncreasingUnique(a[1..], b[1..], le);
      assert a == [a[0]] + a[1..] && b == [b[0]] + b[1..];
    }
  }

  /** `sort` then `dedup`. */
  function SortDedup<T(!new, ==)>(xs: seq<T>, le: (T, T) -> bool): (r: seq<T>)
    ensures forall x :: x in r <==> x in xs
    ensures TotalOrder(le) ==> Increasing(r, le)
  {
    var s := Sort(xs, le);
    assert forall x :: x in s <==> x in xs by {
      forall x ensures x in s <==> x in xs {
        assert x in s <==> x in multiset(s);
      }
    }
    assert TotalOrder(le) ==> Increasing(Dedup(s), le) by {
      if TotalOrder(le) { DedupIncreasing(s, le); }
    }
    Dedup(s)
  }

  /** Equal element sets give equal lists, and only they do. */
  lemma SortDedupCanonical<T(!new)>(xs: seq<T>, ys: seq<T>, le: (T, T) -> bool)
    requires TotalOrder(le)
    ensures SortDedup(xs, le) == SortDedup(ys, le) <==> Elements(xs) == Elements(ys)
  {
    var a, b := SortDedup(xs, le), SortDedup(ys, le);
    assert Elements(a) == Elements(xs);
    assert Elements(b) == Elements(ys);
    if Elements(xs) == Elements(ys) { IncreasingUnique(a, b, le); }
  }

  /** Lexicographic order on sequences, the derived order of vectors and strings. */
  predicate LexLe<T(==)>(le: (T, T) -> bool, a: seq<T>, b: seq<T>) {
    a == [] || (b != [] && if a[0] == b[0] then LexLe(le, a[1..], b[1..]) else le(a[0], b[0]))
  }

  lemma {:induction false} LexTotal<T(!new)>(le: (T, T) -> bool, a: seq<T>, b: seq<T>)
    requires TotalOrder(le)
    ensures LexLe(le, a, b) || LexLe(le, b, a)
    ensures LexLe(le, a, b) && LexLe(le, b, a) ==> a == b
  {
    if a != [] && b != [] && a[0] == b[0] {
      LexTotal(le, a[1..], b[1..]);
      assert a == [a[0]] + a[1..] && b == [b[0]] + b[1..];
    }
  }

  lemma {:induction false} LexTransitive<T(!new)>(le: (T, T) -> bool, a: seq<T>, b: seq<T>, c: seq<T>)
    requires TotalOrder(le) && LexLe(le, a, b) && LexLe(le, b, c)
    ensures LexLe(le, a, c)
  {
    if a != [] && a[0] == b[0] && b[0] == c[0] {
      LexTransitive(le, a[1..], b[1..], c[1..]);
    }
  }

  lemma FrontsLater<T>(a: seq<T>, b: seq<T>, k: nat)
    requires a != [] && b != [] && a[0] == b[0] && 1 <= k <= |a| && k <= |b|
    ensures a[..k] == b[..k] <==> a[1..][..k - 1] == b[1..][..k - 1]
  {
    assert a[..k] == [a[0]] + a[1..][..k - 1] && b[..k] == [b[0]] + b[1..][..k - 1];
  }

  /** The two agree before position `k` and `le` decides there. */
  predicate DecidedAt<T(==)>(le: (T, T) -> bool, a: seq<T>, b: seq<T>, k: nat) {
    k < |a| && k < |b| && a[..k] == b[..k] && a[k] != b[k] && le(a[k], b[k])
  }

  lemma DecidedLater<T>(le: (T, T) -> bool, a: seq<T>, b: seq<T>, k: nat)
    requires a != [] && b != [] && a[0] == b[0]
    ensures k > 0 ==> (DecidedAt(le, a, b, k) <==> DecidedAt(le, a[1..], b[1..], k - 1))
    ensures !DecidedAt(le, a, b, 0)
  {
    if k > 0 && k < |a| && k < |b| { FrontsLater(a, b, k); }
  }

  /** Dictionary order: a prefix comes first, and otherwise the first place where
      the two differ decides. */
  lemma {:induction false} LexExact<T>(le: (T, T) -> bool, a: seq<T>, b: seq<T>)
    ensures LexLe(le, a, b) <==> a <= b || exists k: nat :: DecidedAt(le, a, b, k)
  {
    if a != [] && b != [] {
      if a[0] == b[0] {
        LexExact(le, a[1..], b[1..]);
        assert a[1..] <= b[1..] <==> a <= b;
        hide DecidedAt;
        forall k: nat ensures k > 0 ==> (DecidedAt(le, a, b, k) <==> DecidedAt(le, a[1..], b[1..], k - 1))
          ensures !DecidedAt(le, a, b, 0)
        {
          DecidedLater(le, a, b, k);
        }
        if k: nat :| DecidedAt(le, a[1..], b[1..], k) { assert DecidedAt(le, a, b, k + 1); }
      } else {
        DecidedFirst(le, a, b);
        hide DecidedAt;
        assert !(a <= b);
      }
    }
  }

  lemma DecidedFirst<T>(le: (T, T) -> bool, a: seq<T>, b: seq<T>)
    requires a != [] && b != [] && a[0] != b[0]
    ensures le(a[0], b[0]) <==> exists k: nat :: DecidedAt(le, a, b, k)
  {
    assert a[..0] == b[..0];
    assert le(a[0], b[0]) ==> DecidedAt(le, a, b, 0);
    forall k: nat | 0 < k < |a| && k < |b| ensures !DecidedAt(le, a, b, k) {
      assert a[..k][0] == a[0] && b[..k][0] == b[0];
    }
  }

  function CharLe(): (char, char) -> bool { (a, b) => a <= b }

  function StringLe(): (string, string) -> bool { (a, b) => LexLe(CharLe(), a, b) }

  function NatLe(): (nat, nat) -> bool { (a, b) => a <= b }

  function BytesLe(): (seq<nat>, seq<nat>) -> bool { (a, b) => LexLe(NatLe(), a, b) }

  /** Strings compare by character, keys by number, smaller first. */
  lemma StringLeExact(a: string, b: string)
    ensures StringLe()(a, b) <==> a <= b || exists k :: 0 <= k < |a| && k < |b| && a[..k] == b[..k] && a[k] < b[k]
  {
    LexExact(CharLe(), a, b);
    hide LexLe;
    forall k: nat ensures DecidedAt(CharLe(), a, b, k) <==> k < |a| && k < |b| && a[..k] == b[..k] && a[k] < b[k] {}
  }

  lemma BytesLeExact(a: seq<nat>, b: seq<nat>)
    ensures BytesLe()(a, b) <==> a <= b || exists k :: 0 <= k < |a| && k < |b| && a[..k] == b[..k] && a[k] < b[k]
  {
    LexExact(NatLe(), a, b);
    hide LexLe;
    forall k: nat ensures DecidedAt(NatLe(), a, b, k) <==> k < |a| && k < |b| && a[..k] == b[..k] && a[k] < b[k] {}
  }

  lemma StringLeTotal()
    ensures TotalOrder(StringLe())
  {
    forall a: string, b: string ensures LexLe(CharLe(), a, b) || LexLe(CharLe(), b, a)
      ensures LexLe(CharLe(), a, b) && LexLe(CharLe(), b, a) ==> a == b
    { LexTotal(CharLe(), a, b); }
    forall a: string, b: string, c: string | LexLe(CharLe(), a, b) && LexLe(CharLe(), b, c)
      ensures LexLe(CharLe(), a, c)
    { LexTransitive(CharLe(), a, b, c); }
  }

  lemma BytesLeTotal()
    ensures TotalOrder(BytesLe())
  {
    forall a: seq<nat>, b: seq<nat> ensures LexLe(NatLe(), a, b) || LexLe(NatLe(), b, a)
      ensures LexLe(NatLe(), a, b) && LexLe(NatLe(), b, a) ==> a == b
    { LexTotal(NatLe(), a, b); }
    forall a: seq<nat>, b: seq<nat>, c: seq<nat> | LexLe(NatLe(), a, b) && LexLe(NatLe(), b, c)
      ensures LexLe(NatLe(), a, c)
    { LexTransitive(NatLe(), a, b, c); }
  }

  // -------------------------------------------------------------------------
  // Lookups by position.
  // -------------------------------------------------------------------------

  /** The first element with the property stands at position `k`. */
  predicate IsFirst<T>(xs: seq<T>, p: T -> bool, k: nat) {
    k < |xs| && p(xs[k]) && forall j :: 0 <= j < k ==> !p(xs[j])
  }

  /** The only element with the property stands at position `k`. */
  predicate IsOnly<T>(xs: seq<T>, p: T -> bool, k: nat) {
    k < |xs| && p(xs[k]) && forall j :: 0 <= j < |xs| && j != k ==> !p(xs[j])
  }

  predicate Nowhere<T>(xs: seq<T>, p: T -> bool) {
    forall j :: 0 <= j < |xs| ==> !p(xs[j])
  }

  lemma FirstLater<T>(xs: seq<T>, p: T -> bool, k: nat)
    requires xs != [] && !p(xs[0])
    ensures k > 0 ==> (IsFirst(xs, p, k) <==> IsFirst(xs[1..], p, k - 1))
    ensures k > 0 ==> (IsOnly(xs, p, k) <==> IsOnly(xs[1..], p, k - 1))
    ensures !IsFirst(xs, p, 0) && !IsOnly(xs, p, 0) && (Nowhere(xs, p) <==> Nowhere(xs[1..], p))
  {
    assert forall j :: 1 <= j < |xs| ==> xs[j] == xs[1..][j - 1];
    assert forall j :: 0 <= j < |xs| - 1 ==> xs[1..][j] == xs[j + 1];
  }

  // -------------------------------------------------------------------------
  // Loops that push: the concatenation of what each element pushes.
  // -------------------------------------------------------------------------

  function FlatMap<A, B>(xs: seq<A>, push: A -> seq<B>): seq<B> {
    if xs == [] then [] else FlatMap(xs[..|xs| - 1], push) + push(xs[|xs| - 1])
  }

  lemma FlatMapNext<A, B>(xs: seq<A>, push: A -> seq<B>, k: nat)
    requires k < |xs|
    ensures FlatMap(xs[..k + 1], push) == FlatMap(xs[..k], push) + push(xs[k])
  {
    assert xs[..k + 1][..k] == xs[..k];
  }

  lemma {:induction false} FlatMapMember<A(!new), B>(xs: seq<A>, push: A -> seq<B>, y: B)
    ensures y in FlatMap(xs, push) <==> exists x :: x in xs && y in push(x)
  {
    if xs != [] {
      var init, last := xs[..|xs| - 1], xs[|xs| - 1];
      FlatMapMember(init, push, y);
      assert forall x :: x in xs <==> x in init || x == last by { assert xs == init + [last]; }
    }
  }

  lemma {:induction false} FlatMapEmpty<A(!new), B>(xs: seq<A>, push: A -> seq<B>)
    ensures FlatMap(xs, push) == [] <==> forall x :: x in xs ==> push(x) == []
  {
    if xs != [] {
      var init, last := xs[..|xs| - 1], xs[|xs| - 1];
      FlatMapEmpty(init, push);
      assert forall x :: x in xs <==> x in init || x == last by { assert xs == init + [last]; }
    }
  }

  lemma Assoc<T>(a: seq<T>, b: seq<T>, c: seq<T>)
    ensures (a + b) + c == a + (b + c)
  {}
}
