/** Running one field codec after another over a buffer, for any field codecs:
    what each field guarantees, the whole run guarantees. */
module Codecs {
  import opened Orders
  import opened Octets

  /** Reads a field of shape `S` at an offset: its value and the offset after it. */
  type Step<!S, V, E> = (S, seq<Byte>, nat) -> Result<(V, nat), E>

  /** The fields of a schema, from `start` on. */
  function Run<S, V, E>(step: Step<S, V, E>, schema: seq<S>, data: seq<Byte>, start: nat): Result<(seq<V>, nat), E> {
    if schema == [] then Ok(([], start))
    else
      var (values, offset) :- Run(step, schema[..|schema| - 1], data, start);
      var (v, end) :- step(schema[|schema| - 1], data, offset);
      Ok((values + [v], end))
  }

  lemma RunNext<S, V, E>(step: Step<S, V, E>, schema: seq<S>, data: seq<Byte>, start: nat, k: nat)
    requires k < |schema|
    ensures Run(step, schema[..k + 1], data, start)
         == match Run(step, schema[..k], data, start)
            case Err(e) => Err(e)
            case Ok((values, offset)) =>
              match step(schema[k], data, offset)
              case Err(e) => Err(e)
              case Ok((v, end)) => Ok((values + [v], end))
  {
    assert schema[..k + 1][..k] == schema[..k];
  }

  /** A failure at one field is the failure of the whole run. */
  lemma {:induction false} RunFails<S, V, E>(step: Step<S, V, E>, schema: seq<S>, data: seq<Byte>, start: nat, k: nat)
    requires k <= |schema| && Run(step, schema[..k], data, start).Err?
    ensures Run(step, schema, data, start) == Run(step, schema[..k], data, start)
  {
    if k < |schema| {
      assert schema[..|schema| - 1][..k] == schema[..k];
      RunFails(step, schema[..|schema| - 1], data, start, k);
    } else {
      assert schema[..k] == schema;
    }
  }

  // -------------------------------------------------------------------------
  // Reading back what was written.
  // -------------------------------------------------------------------------

  /** These bytes are read as this value, whatever stands before and after them. */
  ghost predicate ReadsBack<S, V(!new), E>(step: Step<S, V, E>, s: S, v: V, bytes: seq<Byte>) {
    forall pre, rest :: step(s, pre + bytes + rest, |pre|) == Ok((v, |pre| + |bytes|))
  }

  lemma Regroup(pre: seq<Byte>, init: seq<Byte>, last: seq<Byte>, rest: seq<Byte>)
    ensures pre + (init + last) + rest == pre + init + (last + rest) == (pre + init) + last + rest
    ensures |pre + init| == |pre| + |init| && |init + last| == |init| + |last|
  {}

  lemma RunLast<S, V, E>(step: Step<S, V, E>, schema: seq<S>, data: seq<Byte>, start: nat,
                         values: seq<V>, offset: nat, v: V, end: nat)
    requires schema != [] && Run(step, schema[..|schema| - 1], data, start) == Ok((values, offset))
    requires step(schema[|schema| - 1], data, offset) == Ok((v, end))
    ensures Run(step, schema, data, start) == Ok((values + [v], end))
  {}

  lemma ReadsBackLast<S, V(!new), E>(
      step: Step<S, V, E>, schema: seq<S>, pre: seq<Byte>, init: seq<Byte>, last: seq<Byte>, rest: seq<Byte>,
      values: seq<V>, v: V)
    requires schema != [] && ReadsBack(step, schema[|schema| - 1], v, last)
    requires Run(step, schema[..|schema| - 1], pre + init + (last + rest), |pre|) == Ok((values, |pre| + |init|))
    ensures Run(step, schema, pre + (init + last) + rest, |pre|) == Ok((values + [v], |pre| + |init + last|))
  {
    Regroup(pre, init, last, rest);
    var data := (pre + init) + last + rest;
    assert step(schema[|schema| - 1], data, |pre + init|) == Ok((v, |pre + init| + |last|));
    hide ReadsBack, Run;
    RunLast(step, schema, data, |pre|, values, |pre| + |init|, v, |pre| + |init| + |last|);
  }

  lemma {:induction false} RunReadsBack<S, V(!new), E>(
      step: Step<S, V, E>, enc: V -> seq<Byte>, schema: seq<S>, values: seq<V>, pre: seq<Byte>, rest: seq<Byte>)
    requires |schema| == |values|
    requires forall k :: 0 <= k < |schema| ==> ReadsBack(step, schema[k], values[k], enc(values[k]))
    ensures Run(step, schema, pre + FlatMap(values, enc) + rest, |pre|) == Ok((values, |pre| + |FlatMap(values, enc)|))
  {
    if schema != [] {
      var n := |schema| - 1;
      var init, last := FlatMap(values[..n], enc), enc(values[n]);
      RunReadsBack(step, enc, schema[..n], values[..n], pre, last + rest);
      assert ReadsBack(step, schema[n], values[n], last);
      ReadsBackLast(step, schema, pre, init, last, rest, values[..n], values[n]);
      assert FlatMap(values, enc) == init + last;
      assert values == values[..n] + [values[n]];
    }
  }

  // -------------------------------------------------------------------------
  // Writing back what was read.
  // -------------------------------------------------------------------------

  /** Whatever is read at any offset has the property and encodes to the bytes it was read from. */
  ghost predicate WritesBack<S, V(!new), E>(
      step: Step<S, V, E>, enc: V -> seq<Byte>, ok: (S, V) -> bool, s: S, data: seq<Byte>)
  {
    forall offset: nat, v, end :: offset <= |data| && step(s, data, offset) == Ok((v, end)) ==>
      offset <= end <= |data| && ok(s, v) && enc(v) == data[offset..end]
  }

  lemma WroteBack<S, V(!new), E>(step: Step<S, V, E>, enc: V -> seq<Byte>, ok: (S, V) -> bool, s: S, data: seq<Byte>,
                                 offset: nat, v: V, end: nat)
    requires WritesBack(step, enc, ok, s, data) && offset <= |data| && step(s, data, offset) == Ok((v, end))
    ensures offset <= end <= |data| && ok(s, v) && enc(v) == data[offset..end]
  {}

  lemma SlicesMeet(data: seq<Byte>, a: nat, b: nat, c: nat)
    requires a <= b <= c <= |data|
    ensures data[a..b] + data[b..c] == data[a..c]
  {}

  lemma FlatMapLast<V>(init: seq<V>, v: V, enc: V -> seq<Byte>)
    ensures FlatMap(init + [v], enc) == FlatMap(init, enc) + enc(v)
  {
    assert (init + [v])[..|init|] == init;
  }

  lemma WritesBackLast<S, V(!new), E>(
      step: Step<S, V, E>, enc: V -> seq<Byte>, ok: (S, V) -> bool, schema: seq<S>, data: seq<Byte>, start: nat,
      init: seq<V>, offset: nat)
    requires schema != [] && Run(step, schema[..|schema| - 1], data, start) == Ok((init, offset))
    requires start <= offset <= |data| && |init| == |schema| - 1 && FlatMap(init, enc) == data[start..offset]
    requires forall k :: 0 <= k < |init| ==> ok(schema[k], init[k])
    requires WritesBack(step, enc, ok, schema[|schema| - 1], data) && Run(step, schema, data, start).Ok?
    ensures WroteAll(enc, ok, schema, data, start, Run(step, schema, data, start).value)
  {
    hide FlatMap, WritesBack;
    var last := schema[|schema| - 1];
    var (v, end) := step(last, data, offset).value;
    WroteBack(step, enc, ok, last, data, offset, v, end);
    FlatMapLast(init, v, enc);
    SlicesMeet(data, start, offset, end);
    RunLast(step, schema, data, start, init, offset, v, end);
  }

  /** The values are good and encode to the bytes they were read from. */
  ghost predicate WroteAll<S, V(!new)>(
      enc: V -> seq<Byte>, ok: (S, V) -> bool, schema: seq<S>, data: seq<Byte>, start: nat, read: (seq<V>, nat))
  {
    && start <= read.1 <= |data| && |read.0| == |schema|
    && (forall k :: 0 <= k < |schema| ==> ok(schema[k], read.0[k]))
    && FlatMap(read.0, enc) == data[start..read.1]
  }

  lemma {:induction false} RunWritesBack<S, V(!new), E>(
      step: Step<S, V, E>, enc: V -> seq<Byte>, ok: (S, V) -> bool, schema: seq<S>, data: seq<Byte>, start: nat)
    requires start <= |data| && Run(step, schema, data, start).Ok?
    requires forall s :: s in schema ==> WritesBack(step, enc, ok, s, data)
    ensures WroteAll(enc, ok, schema, data, start, Run(step, schema, data, start).value)
  {
    if schema != [] {
      hide WritesBack;
      var n := |schema| - 1;
      assert schema[n] in schema && forall s :: s in schema[..n] ==> s in schema;
      RunWritesBack(step, enc, ok, schema[..n], data, start);
      var (init, offset) := Run(step, schema[..n], data, start).value;
      WritesBackLast(step, enc, ok, schema, data, start, init, offset);
    } else {
      assert data[start..start] == [];
    }
  }

  // -------------------------------------------------------------------------
  // Cutting and extending the buffer.
  // -------------------------------------------------------------------------

  /** A field that ends within the first `n` bytes is read from them alone, and
      one that does not is refused for a reason in `short`. */
  ghost predicate Cuts<S, V(!new), E>(step: Step<S, V, E>, short: E -> bool, s: S, data: seq<Byte>, n: nat)
    requires n <= |data|
  {
    forall offset: nat, v, end :: offset <= |data| && step(s, data, offset) == Ok((v, end)) ==>
      && offset <= end <= |data|
      && (end <= n ==> step(s, data[..n], offset) == Ok((v, end)))
      && (offset <= n < end ==> step(s, data[..n], offset).Err? && short(step(s, data[..n], offset).error))
  }

  lemma {:induction false} RunCuts<S, V(!new), E>(
      step: Step<S, V, E>, short: E -> bool, schema: seq<S>, data: seq<Byte>, start: nat, n: nat)
    requires start <= n <= |data| && Run(step, schema, data, start).Ok?
    requires forall s :: s in schema ==> Cuts(step, short, s, data, n)
    ensures
      var end := Run(step, schema, data, start).value.1;
      var cut := Run(step, schema, data[..n], start);
      && start <= end <= |data|
      && (end <= n ==> cut == Run(step, schema, data, start))
      && (n < end ==> cut.Err? && short(cut.error))
  {
    if schema != [] {
      var k := |schema| - 1;
      forall s | s in schema[..k] ensures Cuts(step, short, s, data, n) { assert s in schema; }
      RunCuts(step, short, schema[..k], data, start, n);
      assert schema[k] in schema;
      assert Cuts(step, short, schema[k], data, n);
      var offset := Run(step, schema[..k], data, start).value.1;
      var (v, end) := step(schema[k], data, offset).value;
      assert step(schema[k], data, offset) == Ok((v, end));
    }
  }

  /** A field read from a buffer is read alike from a longer one. */
  ghost predicate Extends<S, V(!new), E>(step: Step<S, V, E>, s: S, data: seq<Byte>, more: seq<Byte>) {
    forall offset: nat, v, end :: offset <= |data| && step(s, data, offset) == Ok((v, end)) ==>
      offset <= end <= |data| && step(s, data + more, offset) == Ok((v, end))
  }

  lemma {:induction false} RunExtends<S, V(!new), E>(
      step: Step<S, V, E>, schema: seq<S>, data: seq<Byte>, start: nat, more: seq<Byte>)
    requires start <= |data| && Run(step, schema, data, start).Ok?
    requires forall s :: s in schema ==> Extends(step, s, data, more)
    ensures Run(step, schema, data + more, start) == Run(step, schema, data, start)
    ensures start <= Run(step, schema, data, start).value.1 <= |data|
  {
    if schema != [] {
      var k := |schema| - 1;
      forall s | s in schema[..k] ensures Extends(step, s, data, more) { assert s in schema; }
      RunExtends(step, schema[..k], data, start, more);
      assert schema[k] in schema;
      assert Extends(step, schema[k], data, more);
      var offset := Run(step, schema[..k], data, start).value.1;
      var (v, end) := step(schema[k], data, offset).value;
      assert step(schema[k], data, offset) == Ok((v, end));
    }
  }
}
