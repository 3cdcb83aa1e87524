/** Comparing two write sets in field space, so that a field that moved keeps
    its authority, and in absolute offsets for the bytes outside every field. */
module FieldSpace {
  import opened Orders
  import opened Intervals
  import opened Manifest
  import opened Findings

  // -------------------------------------------------------------------------
  // Specification over sets of bytes.
  // -------------------------------------------------------------------------

  function FieldRange(f: Field): Interval { Interval(f.offset, f.End()) }

  function FieldRanges(fields: seq<Field>): seq<Interval> {
    seq(|fields|, k requires 0 <= k < |fields| => FieldRange(fields[k]))
  }

  /** The bytes of a set inside a field, counted from the field's start. */
  ghost function Relative(s: set<nat>, f: Field): set<nat> {
    set x | x in s && f.offset <= x < f.End() :: x - f.offset
  }

  /** The bytes of a set outside every field. */
  ghost function OutsideBytes(s: set<nat>, layout: Layout): set<nat> {
    s - Bytes(FieldRanges(layout.fields))
  }

  function FieldLabel(f: Field, relative: seq<Interval>): Part {
    if relative == [Interval(0, f.size)] then WholeField(f.name) else FieldPart(f.name, relative)
  }

  function FirstOffset(fields: seq<Field>): Option<nat> {
    if fields == [] then None
    else match FirstOffset(fields[1..])
      case None => Some(fields[0].offset)
      case Some(o) => Some(if fields[0].offset < o then fields[0].offset else o)
  }

  function RunLabel(layout: Layout): Interval -> seq<Part> {
    (run: Interval) =>
      match FirstOffset(layout.fields)
      case Some(first) => if run.end <= first then [HeaderPart(run)] else [UnmappedPart(run)]
      case None => [UnmappedPart(run)]
  }

  lemma {:induction false} FirstOffsetLeast(fields: seq<Field>)
    ensures fields == [] <==> FirstOffset(fields).None?
    ensures FirstOffset(fields).Some? ==>
      && (forall f :: f in fields ==> FirstOffset(fields).value <= f.offset)
      && exists f :: f in fields && f.offset == FirstOffset(fields).value
  {
    if fields != [] {
      FirstOffsetLeast(fields[1..]);
      assert forall f :: f in fields <==> f == fields[0] || f in fields[1..] by {
        assert fields == [fields[0]] + fields[1..];
      }
    }
  }

  /** Bytes outside all fields are header bytes exactly when they end before every
      field starts, and there is one. */
  lemma RunLabelExact(layout: Layout, run: Interval)
    ensures RunLabel(layout)(run)
         == if layout.fields != [] && forall f :: f in layout.fields ==> run.end <= f.offset
            then [HeaderPart(run)] else [UnmappedPart(run)]
  {
    FirstOffsetLeast(layout.fields);
  }

  /** A field is named as a whole exactly when all of its bytes are meant. */
  lemma FieldLabelExact(f: Field, s: set<nat>)
    requires s != {}
    ensures FieldLabel(f, Runs(s)) == WholeField(f.name) <==> s == Span(Interval(0, f.size))
    ensures FieldLabel(f, Runs(s)) != WholeField(f.name) ==> FieldLabel(f, Runs(s)) == FieldPart(f.name, Runs(s))
  {
    var whole := [Interval(0, f.size)];
    assert whole[..0] == [];
    assert Bytes(whole) == Span(Interval(0, f.size));
    if s == Span(Interval(0, f.size)) {
      assert f.size > 0;
      CanonicalUnique(Runs(s), whole);
    }
  }

  /** What `t` writes in the first field of `layout` with that name. */
  ghost function Matching(t: set<nat>, layout: Layout, name: string): set<nat> {
    match FindField(layout.fields, name)
    case None => {}
    case Some(g) => Relative(t, g)
  }

  ghost function FieldBeyond(s: set<nat>, t: set<nat>, other: Layout): Field -> seq<Part> {
    (f: Field) =>
      var beyond := Runs(Relative(s, f) - Matching(t, other, f.name));
      if beyond == [] then [] else [FieldLabel(f, beyond)]
  }

  /** What write set `s` under `layout` has that `t` under `other` has not. */
  ghost function Beyond(s: set<nat>, layout: Layout, t: set<nat>, other: Layout): seq<Part> {
    FlatMap(layout.fields, FieldBeyond(s, t, other))
    + FlatMap(Runs(OutsideBytes(s, layout) - OutsideBytes(t, other)), RunLabel(layout))
  }

  // -------------------------------------------------------------------------
  // The code: intervals in, labelled parts out.
  // -------------------------------------------------------------------------

  method RelativeRanges(iv: seq<Interval>, f: Field) returns (r: seq<Interval>)
    ensures Bytes(r) == Relative(Bytes(iv), f)
  {
    var inside := Intersect(iv, [FieldRange(f)]);
    SingleRange(FieldRange(f));
    r := [];
    for k := 0 to |inside|
      invariant Bytes(r) == Relative(Bytes(inside[..k]), f)
    {
      InsideField(iv, inside, f, k);
      var shifted := Interval(inside[k].start - f.offset, inside[k].end - f.offset);
      assert inside[..k + 1] == inside[..k] + [inside[k]];
      BytesSnoc(inside[..k], inside[k]);
      RelativeGrows(Bytes(inside[..k]), inside[k], shifted, f);
      BytesSnoc(r, shifted);
      r := r + [shifted];
    }
    assert inside[..|inside|] == inside;
    RelativeOfMeet(Bytes(iv), f);
  }

  lemma SingleRange(i: Interval)
    ensures Bytes([i]) == Span(i)
  {
    BytesSnoc([], i);
    assert [] + [i] == [i];
  }

  lemma RelativeGrows(s: set<nat>, i: Interval, shifted: Interval, f: Field)
    requires f.offset <= i.start <= i.end <= f.End()
    requires shifted == Interval(i.start - f.offset, i.end - f.offset)
    ensures Relative(s + Span(i), f) == Relative(s, f) + Span(shifted)
  {
    forall y: nat ensures y in Relative(s + Span(i), f) <==> y in Relative(s, f) || y in Span(shifted) {
      RelativeMember(s + Span(i), f, y);
      RelativeMember(s, f, y);
      assert y in Span(shifted) <==> y + f.offset in Span(i);
    }
  }

  lemma RelativeMember(s: set<nat>, f: Field, y: nat)
    ensures y in Relative(s, f) <==> y < f.size && y + f.offset in s
  {
    if y < f.size && y + f.offset in s { assert (y + f.offset) - f.offset == y; }
  }

  lemma RelativeOfMeet(s: set<nat>, f: Field)
    ensures Relative(s * Span(FieldRange(f)), f) == Relative(s, f)
  {
    forall y: nat ensures y in Relative(s * Span(FieldRange(f)), f) <==> y in Relative(s, f) {
      RelativeMember(s * Span(FieldRange(f)), f, y);
      RelativeMember(s, f, y);
    }
  }

  /** Ranges cut out by a field stay inside it. */
  lemma InsideField(iv: seq<Interval>, inside: seq<Interval>, f: Field, k: nat)
    requires inside == Runs(Bytes(iv) * Span(FieldRange(f))) && k < |inside|
    ensures f.offset <= inside[k].start <= inside[k].end <= f.End()
  {
    CanonicalAt(inside, k);
    Covers(inside, k, inside[k].start);
    Covers(inside, k, inside[k].end - 1);
  }

  /** The parts of `iv` that `other` does not write, field by field. */
  method FieldPartsBeyond(iv: seq<Interval>, layout: Layout, otherIv: seq<Interval>, other: Layout)
    returns (parts: seq<Part>)
    ensures parts == FlatMap(layout.fields, FieldBeyond(Bytes(iv), Bytes(otherIv), other))
  {
    ghost var push := FieldBeyond(Bytes(iv), Bytes(otherIv), other);
    parts := [];
    for k := 0 to |layout.fields|
      invariant parts == FlatMap(layout.fields[..k], push)
    {
      hide FlatMap, Relative, Runs, Bytes;
      var f := layout.fields[k];
      var here := RelativeRanges(iv, f);
      var there := [];
      match FindField(other.fields, f.name) {
        case None => assert Bytes(there) == {} by { NoBytes(); }
        case Some(g) => there := RelativeRanges(otherIv, g);
      }
      var beyond := Subtract(here, there);
      FlatMapNext(layout.fields, push, k);
      if beyond != [] {
        parts := parts + [FieldLabel(f, beyond)];
      }
    }
    assert layout.fields[..|layout.fields|] == layout.fields;
  }

  lemma NoBytes()
    ensures Bytes([]) == {}
  {}

  /** The runs `iv` writes outside its fields that `other` does not write outside its own. */
  method OutsideBeyond(iv: seq<Interval>, layout: Layout, otherIv: seq<Interval>, other: Layout)
    returns (runs: seq<Interval>)
    ensures runs == Runs(OutsideBytes(Bytes(iv), layout) - OutsideBytes(Bytes(otherIv), other))
  {
    var covered := Normalize(FieldRanges(layout.fields));
    var mine := Subtract(iv, covered);
    var otherCovered := Normalize(FieldRanges(other.fields));
    var others := Subtract(otherIv, otherCovered);
    runs := Subtract(mine, others);
  }

  /** Both, field parts first. */
  method PartsBeyond(iv: seq<Interval>, layout: Layout, otherIv: seq<Interval>, other: Layout)
    returns (parts: seq<Part>)
    ensures parts == Beyond(Bytes(iv), layout, Bytes(otherIv), other)
  {
    parts := FieldPartsBeyond(iv, layout, otherIv, other);
    var runs := OutsideBeyond(iv, layout, otherIv, other);
    ghost var fieldParts := parts;
    ghost var mark := RunLabel(layout);
    for k := 0 to |runs|
      invariant parts == fieldParts + FlatMap(runs[..k], mark)
    {
      hide FlatMap, Runs;
      FlatMapNext(runs, mark, k);
      parts := parts + RunLabel(layout)(runs[k]);
    }
    assert runs[..|runs|] == runs;
  }

  method FieldRelativeDelta(oldIv: seq<Interval>, oldLayout: Layout, newIv: seq<Interval>, newLayout: Layout)
    returns (gained: seq<Part>, lost: seq<Part>)
    ensures gained == Beyond(Bytes(newIv), newLayout, Bytes(oldIv), oldLayout)
    ensures lost == Beyond(Bytes(oldIv), oldLayout, Bytes(newIv), newLayout)
  {
    gained := PartsBeyond(newIv, newLayout, oldIv, oldLayout);
    lost := PartsBeyond(oldIv, oldLayout, newIv, newLayout);
  }

  // -------------------------------------------------------------------------
  // Meaning: sites of authority.
  // -------------------------------------------------------------------------

  /** A place a write can touch: a byte of a named field, or a byte outside all fields. */
  datatype Site = InField(field: string, relative: nat) | OutsideFields(byte: nat)

  /** Write set `s` reaches the site under the layout. */
  ghost predicate Reaches(s: set<nat>, layout: Layout, site: Site) {
    match site
    case InField(name, rel) => exists f :: f in layout.fields && f.name == name && rel in Relative(s, f)
    case OutsideFields(b) => b in OutsideBytes(s, layout)
  }

  /** As `Reaches`, but a field name means the first field that has it. */
  ghost predicate ReachesFirst(s: set<nat>, layout: Layout, site: Site) {
    match site
    case InField(name, rel) => rel in Matching(s, layout, name)
    case OutsideFields(b) => b in OutsideBytes(s, layout)
  }

  lemma FirstIsReached(s: set<nat>, layout: Layout, site: Site)
    ensures ReachesFirst(s, layout, site) ==> Reaches(s, layout, site)
    ensures UniqueFields(layout.fields) ==> (ReachesFirst(s, layout, site) <==> Reaches(s, layout, site))
  {}

  /** Nothing is reported exactly when nothing is beyond, field by field and outside. */
  lemma BeyondNothing(s: set<nat>, layout: Layout, t: set<nat>, other: Layout)
    ensures Beyond(s, layout, t, other) == []
       <==> (forall f :: f in layout.fields ==> Relative(s, f) <= Matching(t, other, f.name))
            && OutsideBytes(s, layout) <= OutsideBytes(t, other)
  {
    var push := FieldBeyond(s, t, other);
    var runs := Runs(OutsideBytes(s, layout) - OutsideBytes(t, other));
    FlatMapEmpty(layout.fields, push);
    forall f: Field ensures push(f) == [] <==> Relative(s, f) <= Matching(t, other, f.name) {
      SubtractEmpty(Relative(s, f), Matching(t, other, f.name));
    }
    FlatMapEmpty(runs, RunLabel(layout));
    SubtractEmpty(OutsideBytes(s, layout), OutsideBytes(t, other));
    if runs != [] { assert runs[0] in runs && RunLabel(layout)(runs[0]) != []; }
  }

  /** Nothing is reported exactly when every site reached is reached by the other side. */
  lemma BeyondEmpty(s: set<nat>, layout: Layout, t: set<nat>, other: Layout)
    ensures Beyond(s, layout, t, other) == []
       <==> forall site :: Reaches(s, layout, site) ==> ReachesFirst(t, other, site)
  {
    BeyondNothing(s, layout, t, other);
    if forall site :: Reaches(s, layout, site) ==> ReachesFirst(t, other, site) {
      forall f, rel | f in layout.fields && rel in Relative(s, f) ensures rel in Matching(t, other, f.name) {
        assert Reaches(s, layout, InField(f.name, rel));
      }
      forall b | b in OutsideBytes(s, layout) ensures b in OutsideBytes(t, other) {
        assert Reaches(s, layout, OutsideFields(b));
      }
    }
  }

  /** No gain is transitive. */
  lemma NoGainTransitive(s: set<nat>, a: Layout, t: set<nat>, b: Layout, u: set<nat>, c: Layout)
    requires Beyond(s, a, t, b) == [] && Beyond(t, b, u, c) == []
    ensures Beyond(s, a, u, c) == []
  {
    BeyondEmpty(s, a, t, b);
    BeyondEmpty(t, b, u, c);
    forall site | Reaches(s, a, site) ensures ReachesFirst(u, c, site) {
      FirstIsReached(t, b, site);
    }
    BeyondEmpty(s, a, u, c);
  }

  /** Every name in the layout stands for all of its fields: what uniqueness is for. */
  ghost predicate FirstStandsForAll(fields: seq<Field>) {
    forall f :: f in fields && f.size > 0 ==>
      var g := FindField(fields, f.name);
      g.Some? && g.value.offset == f.offset && f.size <= g.value.size
  }

  /** Comparing a document with itself reports nothing, for every write set,
      exactly when no field name is reused for other bytes. */
  lemma NoGainReflexive(layout: Layout)
    ensures (forall s: set<nat> :: Beyond(s, layout, s, layout) == []) <==> FirstStandsForAll(layout.fields)
  {
    if FirstStandsForAll(layout.fields) {
      forall s: set<nat> ensures Beyond(s, layout, s, layout) == [] {
        forall site | Reaches(s, layout, site) ensures ReachesFirst(s, layout, site) {}
        BeyondEmpty(s, layout, s, layout);
      }
    }
    if forall s: set<nat> :: Beyond(s, layout, s, layout) == [] {
      forall f | f in layout.fields && f.size > 0
        ensures var g := FindField(layout.fields, f.name);
          g.Some? && g.value.offset == f.offset && f.size <= g.value.size
      {
        SingleByte(layout, f, 0);
        SingleByte(layout, f, f.size - 1);
      }
    }
  }

  lemma SingleByte(layout: Layout, f: Field, rel: nat)
    requires f in layout.fields && rel < f.size
    requires Beyond({f.offset + rel}, layout, {f.offset + rel}, layout) == []
    ensures var g := FindField(layout.fields, f.name);
      g.Some? && g.value.offset == f.offset && rel < g.value.size
  {
    var s := {f.offset + rel};
    BeyondEmpty(s, layout, s, layout);
    assert f.offset + rel in s;
    assert rel in Relative(s, f);
    assert Reaches(s, layout, InField(f.name, rel));
  }

  // -------------------------------------------------------------------------
  // Moving fields together with their ranges.
  // -------------------------------------------------------------------------

  /** The same fields, name by name and size by size, at other offsets. */
  ghost predicate Relocates(a: Layout, b: Layout) {
    && |a.fields| == |b.fields|
    && forall k :: 0 <= k < |a.fields| ==>
         a.fields[k].name == b.fields[k].name && a.fields[k].size == b.fields[k].size
  }

  /** The write set that follows the fields from `a` to `b` and keeps the
      bytes that are outside the fields of both. */
  ghost predicate Follows(s: set<nat>, a: Layout, t: set<nat>, b: Layout) {
    && (forall k :: 0 <= k < |a.fields| && k < |b.fields| ==>
         Relative(s, a.fields[k]) == Relative(t, b.fields[k]))
    && OutsideBytes(s, a) == OutsideBytes(t, b)
  }

  /** Fields that move together with their ranges gain nothing, in either direction. */
  lemma MovedFieldsKeepAuthority(s: set<nat>, a: Layout, t: set<nat>, b: Layout)
    requires Relocates(a, b) && Follows(s, a, t, b)
    requires UniqueFields(a.fields) && UniqueFields(b.fields)
    ensures Beyond(t, b, s, a) == [] && Beyond(s, a, t, b) == []
  {
    MovedOneWay(s, a, t, b);
    MovedOneWay(t, b, s, a);
  }

  lemma MovedOneWay(s: set<nat>, a: Layout, t: set<nat>, b: Layout)
    requires Relocates(a, b) && Follows(s, a, t, b) && UniqueFields(a.fields)
    ensures Beyond(t, b, s, a) == []
  {
    forall site | Reaches(t, b, site) ensures ReachesFirst(s, a, site) {
      FirstIsReached(s, a, site);
      match site {
        case InField(name, rel) =>
          var g :| g in b.fields && g.name == name && rel in Relative(t, g);
          var k :| 0 <= k < |b.fields| && b.fields[k] == g;
          assert a.fields[k] in a.fields && rel in Relative(s, a.fields[k]);
        case OutsideFields(_) =>
      }
    }
    BeyondEmpty(t, b, s, a);
  }
}
