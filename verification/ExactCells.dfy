/** What one invocation may write once its exact-cell rules are resolved, and
    when the diff's silence carries over to invocations. */
module ExactCells {
  import opened Orders
  import opened Arithmetic
  import opened Intervals
  import opened Manifest
  import opened Findings
  import opened FieldSpace
  import opened Authority
  import opened Rights
  import opened Soundness

  /** The whole column a rule governs. */
  ghost function Envelope(r: CellRule): set<nat> {
    match r.EnvelopeEnd()
    case None => {}
    case Some(end) => Span(Interval(r.baseOffset, end))
  }

  ghost function Cell(r: CellRule, v: nat): set<nat> {
    Span(Interval(r.baseOffset + r.stride * v, r.baseOffset + r.stride * v + r.cellSize))
  }

  /** The cell a selector value picks; a value past the last cell picks none. */
  ghost function Picked(r: CellRule, v: nat): set<nat> {
    if v < r.count then Cell(r, v) else {}
  }

  /** The static bytes that no column governs. */
  ghost function Ungoverned(statics: set<nat>, rules: seq<CellRule>): set<nat> {
    set byte | byte in statics && forall r :: r in rules ==> byte !in Envelope(r)
  }

  /** Bytes the invocation may write on the account: the picked cells, and the
      static bytes that no column governs. `sel` gives each selector argument. */
  ghost predicate Resolved(statics: set<nat>, rules: seq<CellRule>, sel: string -> nat, byte: nat) {
    || byte in Ungoverned(statics, rules)
    || exists r :: r in rules && byte in Picked(r, sel(r.argument))
  }

  /** Resolution refuses a selector past the last cell. */
  ghost predicate SelectorsInRange(rules: seq<CellRule>, sel: string -> nat) {
    forall r :: r in rules ==> sel(r.argument) < r.count
  }

  predicate ValidRule(r: CellRule) {
    r.count > 0 && r.cellSize > 0 && (r.count > 1 ==> r.cellSize <= r.stride)
  }

  /** What resolution demands of the rules of one account. */
  ghost predicate ValidRules(statics: set<nat>, rules: seq<CellRule>) {
    && (forall r :: r in rules ==> ValidRule(r) && Envelope(r) <= statics)
    && (forall r, s :: r in rules && s in rules && r != s ==> Envelope(r) !! Envelope(s))
  }

  predicate UniqueSegments(rules: seq<CellRule>) {
    forall r, s :: r in rules && s in rules && r.segment == s.segment ==> r == s
  }

  predicate SameGeometry(r: CellRule, s: CellRule) {
    r.baseOffset == s.baseOffset && r.stride == s.stride && r.cellSize == s.cellSize && r.count == s.count
  }

  /** Every rule that survives keeps its column where and as large as it was. */
  predicate GeometryKept(was: seq<CellRule>, now: seq<CellRule>) {
    forall r :: r in was && RuleFor(now, r.segment).Some? ==> SameGeometry(r, RuleFor(now, r.segment).value)
  }

  lemma CellInEnvelope(r: CellRule, v: nat)
    requires v < r.count
    ensures Cell(r, v) <= Envelope(r)
  {
    TimesMonotone(r.stride, v, r.count - 1);
  }

  /** One old rule under a quiet comparison. */
  lemma QuietRule(at: string, name: string, now: seq<CellRule>, statics: set<nat>, r: CellRule)
    requires Quiet(OldRule(at, name, now, statics)(r))
    ensures RuleFor(now, r.segment).None? ==> Envelope(r) !! statics
    ensures RuleFor(now, r.segment).Some? ==>
      var s := RuleFor(now, r.segment).value; s.count <= r.count && s.cellSize <= r.cellSize && s.argument == r.argument
  {
    var fs := OldRule(at, name, now, statics)(r);
    match RuleFor(now, r.segment) {
      case None =>
        if StillStatic(r, statics) { assert fs[0] in fs && Blocks(fs[0]); }
        if r.EnvelopeEnd().Some? {
          var meet := statics * Span(Interval(r.baseOffset, r.EnvelopeEnd().value));
          RunsEmpty(meet);
          forall x | x in Envelope(r) ensures x !in statics { assert x !in meet; }
        }
      case Some(s) =>
        var sizes, selectors := CellSizeFindings(at, name, r, s), SelectorFindings(at, name, r, s);
        assert fs == sizes + selectors;
        QuietConcat(sizes, selectors);
        if s.count > r.count || s.cellSize > r.cellSize { assert sizes[0] in sizes && Blocks(sizes[0]); }
        if s.argument != r.argument { assert selectors[0] in selectors && Blocks(selectors[0]); }
    }
  }

  /** A byte the new rules leave alone, or select in a surviving or added
      column, lies in no old column but the one that survived as its own. */
  lemma OutsideOldColumns(at: string, name: string, was: seq<CellRule>, now: seq<CellRule>, statics: set<nat>,
                          byte: nat, own: Option<CellRule>, r: CellRule)
    requires forall x :: x in was ==> Quiet(OldRule(at, name, now, statics)(x))
    requires ValidRules(statics, now) && GeometryKept(was, now)
    requires byte in statics && r in was
    requires own.Some? ==> own.value in now && byte in Envelope(own.value)
    requires own.None? ==> forall s :: s in now ==> byte !in Envelope(s)
    requires own.None? || RuleFor(now, r.segment) != own
    ensures byte !in Envelope(r)
  {
    hide Quiet, OldRule, Envelope;
    QuietRule(at, name, now, statics, r);
    match RuleFor(now, r.segment) {
      case None =>
      case Some(s) => SameEnvelope(r, s);
    }
  }

  lemma SameEnvelope(r: CellRule, s: CellRule)
    requires SameGeometry(r, s)
    ensures Envelope(r) == Envelope(s)
  {}

  lemma OutsideAllOldColumns(at: string, name: string, was: seq<CellRule>, now: seq<CellRule>, statics: set<nat>,
                             byte: nat, own: Option<CellRule>)
    requires forall x :: x in was ==> Quiet(OldRule(at, name, now, statics)(x))
    requires ValidRules(statics, now) && GeometryKept(was, now) && byte in statics
    requires own.Some? ==> own.value in now && byte in Envelope(own.value)
    requires own.None? ==> forall s :: s in now ==> byte !in Envelope(s)
    requires own.Some? ==> forall r :: r in was ==> RuleFor(now, r.segment) != own
    ensures forall r :: r in was ==> byte !in Envelope(r)
  {
    forall r | r in was ensures byte !in Envelope(r) {
      OutsideOldColumns(at, name, was, now, statics, byte, own, r);
    }
  }

  /** When no static byte and no blocking finding is added, and surviving columns
      keep their geometry, every invocation may write only what it could before,
      whatever its selectors. */
  lemma InvocationsKept(at: string, name: string, was: seq<CellRule>, now: seq<CellRule>,
                        before: set<nat>, statics: set<nat>, sel: string -> nat, byte: nat)
    requires forall r :: r in was ==> Quiet(OldRule(at, name, now, statics)(r))
    requires statics <= before && ValidRules(statics, now) && UniqueSegments(now)
    requires GeometryKept(was, now) && SelectorsInRange(now, sel)
    requires Resolved(statics, now, sel, byte)
    ensures Resolved(before, was, sel, byte)
  {
    if s :| s in now && byte in Picked(s, sel(s.argument)) {
      CellInEnvelope(s, sel(s.argument));
      if r :| r in was && RuleFor(now, r.segment) == Some(s) {
        QuietRule(at, name, now, statics, r);
        assert byte in Picked(r, sel(r.argument));
      } else {
        OutsideAllOldColumns(at, name, was, now, statics, byte, Some(s));
      }
    } else {
      OutsideAllOldColumns(at, name, was, now, statics, byte, None);
    }
  }

  // -------------------------------------------------------------------------
  // Exactly when invocations gain nothing, for any rules.
  // -------------------------------------------------------------------------

  /** No invocation the new rules accept may write a byte it could not write before. */
  ghost predicate NeverGains(before: set<nat>, was: seq<CellRule>, statics: set<nat>, now: seq<CellRule>) {
    forall sel: string -> nat, byte: nat :: SelectorsInRange(now, sel) && Resolved(statics, now, sel, byte) ==>
      Resolved(before, was, sel, byte)
  }

  /** A value the rules accept for a selector argument. */
  ghost predicate Accepted(rules: seq<CellRule>, argument: string, v: nat) {
    forall s :: s in rules && s.argument == argument ==> v < s.count
  }

  /** Of the old column only the picked cell is left: no ungoverned byte and no
      cell the new rules pick at the same time lies elsewhere in it. */
  ghost predicate RuleKept(statics: set<nat>, now: seq<CellRule>, r: CellRule) {
    forall w :: Accepted(now, r.argument, w) ==>
      && Ungoverned(statics, now) * Envelope(r) <= Picked(r, w)
      && forall s, v :: s in now && Accepted(now, s.argument, v) && (s.argument == r.argument ==> v == w) ==>
           Picked(s, v) * Envelope(r) <= Picked(r, w)
  }

  ghost predicate RulesKept(statics: set<nat>, was: seq<CellRule>, now: seq<CellRule>) {
    forall r :: r in was ==> RuleKept(statics, now, r)
  }

  lemma PickedInEnvelope(r: CellRule, v: nat)
    ensures Picked(r, v) <= Envelope(r)
  {
    if v < r.count { CellInEnvelope(r, v); }
  }

  /** A byte of an old column is writable only where the column's own cell is. */
  lemma OwnColumn(before: set<nat>, was: seq<CellRule>, sel: string -> nat, byte: nat, r: CellRule)
    requires ValidRules(before, was) && r in was && byte in Envelope(r) && Resolved(before, was, sel, byte)
    ensures byte in Picked(r, sel(r.argument))
  {
    var s :| s in was && byte in Picked(s, sel(s.argument));
    PickedInEnvelope(s, sel(s.argument));
  }

  function Selecting(a: string, v: nat, b: string, w: nat): string -> nat {
    (x: string) => if x == a then v else if x == b then w else 0
  }

  lemma SelectingInRange(rules: seq<CellRule>, statics: set<nat>, a: string, v: nat, b: string, w: nat)
    requires ValidRules(statics, rules) && Accepted(rules, a, v) && Accepted(rules, b, w)
    ensures SelectorsInRange(rules, Selecting(a, v, b, w))
  {}

  lemma GainsNothingKeeps(before: set<nat>, was: seq<CellRule>, statics: set<nat>, now: seq<CellRule>, r: CellRule)
    requires ValidRules(before, was) && ValidRules(statics, now) && r in was && NeverGains(before, was, statics, now)
    ensures RuleKept(statics, now, r)
  {
    hide Picked, Ungoverned, Envelope;
    forall w | Accepted(now, r.argument, w)
      ensures Ungoverned(statics, now) * Envelope(r) <= Picked(r, w)
      ensures forall s, v :: s in now && Accepted(now, s.argument, v) && (s.argument == r.argument ==> v == w) ==>
        Picked(s, v) * Envelope(r) <= Picked(r, w)
    {
      forall byte | byte in Ungoverned(statics, now) * Envelope(r) ensures byte in Picked(r, w) {
        SelectingInRange(now, statics, r.argument, w, r.argument, w);
        OwnColumn(before, was, Selecting(r.argument, w, r.argument, w), byte, r);
      }
      forall s, v | s in now && Accepted(now, s.argument, v) && (s.argument == r.argument ==> v == w)
        ensures Picked(s, v) * Envelope(r) <= Picked(r, w)
      {
        forall byte | byte in Picked(s, v) * Envelope(r) ensures byte in Picked(r, w) {
          var sel := Selecting(s.argument, v, r.argument, w);
          SelectingInRange(now, statics, s.argument, v, r.argument, w);
          assert byte in Picked(s, sel(s.argument));
          OwnColumn(before, was, sel, byte, r);
        }
      }
    }
  }

  /** What some accepted selection may write was open to some selection before, or
      to all: it lies among the old static bytes. */
  ghost predicate StaysWithin(before: set<nat>, statics: set<nat>, now: seq<CellRule>) {
    && Ungoverned(statics, now) <= before
    && forall s, v :: s in now && Accepted(now, s.argument, v) ==> Picked(s, v) <= before
  }

  lemma ResolvedWithin(before: set<nat>, was: seq<CellRule>, sel: string -> nat, byte: nat)
    requires ValidRules(before, was) && Resolved(before, was, sel, byte)
    ensures byte in before
  {
    if r :| r in was && byte in Picked(r, sel(r.argument)) { PickedInEnvelope(r, sel(r.argument)); }
  }

  lemma GainsNothingStays(before: set<nat>, was: seq<CellRule>, statics: set<nat>, now: seq<CellRule>)
    requires ValidRules(before, was) && ValidRules(statics, now) && NeverGains(before, was, statics, now)
    ensures StaysWithin(before, statics, now)
  {
    hide Picked, Ungoverned, Envelope;
    forall byte | byte in Ungoverned(statics, now) ensures byte in before {
      var sel := Selecting("", 0, "", 0);
      assert SelectorsInRange(now, sel);
      ResolvedWithin(before, was, sel, byte);
    }
    forall s, v | s in now && Accepted(now, s.argument, v) ensures Picked(s, v) <= before {
      forall byte | byte in Picked(s, v) ensures byte in before {
        var sel := Selecting(s.argument, v, s.argument, v);
        SelectingInRange(now, statics, s.argument, v, s.argument, v);
        assert byte in Picked(s, sel(s.argument));
        ResolvedWithin(before, was, sel, byte);
      }
    }
  }

  lemma StaticsStayWithin(before: set<nat>, statics: set<nat>, now: seq<CellRule>)
    requires ValidRules(statics, now) && statics <= before
    ensures StaysWithin(before, statics, now)
  {
    forall s, v | s in now && Accepted(now, s.argument, v) ensures Picked(s, v) <= before {
      PickedInEnvelope(s, v);
    }
  }

  lemma KeptGainsNothing(before: set<nat>, was: seq<CellRule>, statics: set<nat>, now: seq<CellRule>,
                         sel: string -> nat, byte: nat)
    requires ValidRules(statics, now) && StaysWithin(before, statics, now)
    requires RulesKept(statics, was, now)
    requires SelectorsInRange(now, sel) && Resolved(statics, now, sel, byte)
    ensures Resolved(before, was, sel, byte)
  {
    if s :| s in now && byte in Picked(s, sel(s.argument)) { assert Accepted(now, s.argument, sel(s.argument)); }
    assert byte in before;
    if r :| r in was && byte in Envelope(r) {
      assert Accepted(now, r.argument, sel(r.argument));
      assert RuleKept(statics, now, r);
      if byte !in Ungoverned(statics, now) {
        var s :| s in now && byte in Picked(s, sel(s.argument));
        assert Accepted(now, s.argument, sel(s.argument));
        assert byte in Picked(s, sel(s.argument)) * Envelope(r);
      }
      assert byte in Picked(r, sel(r.argument));
    }
  }

  /** For arbitrary rules, moved, resized, added or removed, over arbitrary static
      bytes: no invocation gains a byte exactly when every old rule is kept and
      nothing is written beyond the old static bytes. */
  lemma InvocationsExact(before: set<nat>, was: seq<CellRule>, statics: set<nat>, now: seq<CellRule>)
    requires ValidRules(before, was) && ValidRules(statics, now)
    ensures NeverGains(before, was, statics, now)
       <==> StaysWithin(before, statics, now) && RulesKept(statics, was, now)
  {
    hide RuleKept, Resolved, StaysWithin;
    if NeverGains(before, was, statics, now) {
      GainsNothingStays(before, was, statics, now);
      forall r | r in was ensures RuleKept(statics, now, r) { GainsNothingKeeps(before, was, statics, now, r); }
    }
    if StaysWithin(before, statics, now) && RulesKept(statics, was, now) {
      forall sel: string -> nat, byte: nat | SelectorsInRange(now, sel) && Resolved(statics, now, sel, byte)
        ensures Resolved(before, was, sel, byte)
      {
        KeptGainsNothing(before, was, statics, now, sel, byte);
      }
    }
  }

  /** The layouts do not hide a moved byte: one is unknown, or both are the same
      and each of its names stands for one field. */
  ghost predicate SameSpace(was: Option<Layout>, now: Option<Layout>) {
    was.Some? && now.Some? ==> was == now && FirstStandsForAll(was.value.fields)
  }

  lemma SiteIsByte(t: set<nat>, s: set<nat>, l: Layout, byte: nat)
    requires FirstStandsForAll(l.fields) && byte in t
    requires forall site :: Reaches(t, l, site) ==> ReachesFirst(s, l, site)
    ensures byte in s
  {
    FieldBytes(l, byte);
    if f :| f in l.fields && Holds(f, byte) {
      hide Relative;
      var rel := byte - f.offset;
      RelativeMember(t, f, rel);
      assert Reaches(t, l, InField(f.name, rel));
      assert ReachesFirst(s, l, InField(f.name, rel));
      RelativeMember(s, FindField(l.fields, f.name).value, rel);
    } else {
      hide FirstStandsForAll, Bytes;
      assert Reaches(t, l, OutsideFields(byte));
      assert ReachesFirst(s, l, OutsideFields(byte));
    }
  }

  lemma FieldSpaceIsOffsets(oiv: seq<Interval>, ol: Option<Layout>, niv: seq<Interval>, nl: Option<Layout>)
    requires ReachesNoFurther(Ranges(niv, nl), Ranges(oiv, ol)) && SameSpace(ol, nl)
    ensures Bytes(niv) <= Bytes(oiv)
  {
    hide Bytes, FirstStandsForAll, Reaches, ReachesFirst;
    if ol.Some? && nl.Some? {
      forall byte | byte in Bytes(niv) ensures byte in Bytes(oiv) {
        SiteIsByte(Bytes(niv), Bytes(oiv), nl.value, byte);
      }
    }
  }

  /** Through the whole comparison of an instruction that is strict on both sides:
      a silent upgrade gives no invocation a byte of the account exactly when
      every old rule is kept, and nothing lies beyond the old static bytes; where
      fields did not move, silence alone sees to the latter. */
  lemma InvocationSound(at: string, u: Upgrade, name: string, i: nat, j: nat)
    requires Quiet(InstructionFindings(at, u)) && u.was.strictWrites && u.now.strictWrites
    requires IndexOf(u.was, name) == Some(i) && IndexOf(u.now, name) == Some(j) && u.now.accounts[j].writable
    requires ValidRules(Bytes(RangesAt(u.was.writeRanges, i)), RulesAt(u.was.cellRules, i))
    requires ValidRules(Bytes(RangesAt(u.now.writeRanges, j)), RulesAt(u.now.cellRules, j))
    ensures
      var before, statics := Bytes(RangesAt(u.was.writeRanges, i)), Bytes(RangesAt(u.now.writeRanges, j));
      var was, now := RulesAt(u.was.cellRules, i), RulesAt(u.now.cellRules, j);
      NeverGains(before, was, statics, now) <==> StaysWithin(before, statics, now) && RulesKept(statics, was, now)
    ensures SameSpace(LayoutNamed(u.was, name, u.wasDoc), LayoutNamed(u.now, name, u.nowDoc)) ==>
      StaysWithin(Bytes(RangesAt(u.was.writeRanges, i)), Bytes(RangesAt(u.now.writeRanges, j)),
                  RulesAt(u.now.cellRules, j))
  {
    var before, statics := Bytes(RangesAt(u.was.writeRanges, i)), Bytes(RangesAt(u.now.writeRanges, j));
    var rules := RulesAt(u.now.cellRules, j);
    if SameSpace(LayoutNamed(u.was, name, u.wasDoc), LayoutNamed(u.now, name, u.nowDoc)) {
      StaticsNotAdded(at, u, name, i, j);
      StaticsStayWithin(before, statics, rules);
    }
    hide Quiet, InstructionFindings, NeverGains, RuleKept, StaysWithin;
    InvocationsExact(before, RulesAt(u.was.cellRules, i), statics, rules);
  }

  lemma StaticsNotAdded(at: string, u: Upgrade, name: string, i: nat, j: nat)
    requires Quiet(InstructionFindings(at, u)) && u.was.strictWrites && u.now.strictWrites
    requires IndexOf(u.was, name) == Some(i) && IndexOf(u.now, name) == Some(j) && u.now.accounts[j].writable
    requires SameSpace(LayoutNamed(u.was, name, u.wasDoc), LayoutNamed(u.now, name, u.nowDoc))
    ensures Bytes(RangesAt(u.now.writeRanges, j)) <= Bytes(RangesAt(u.was.writeRanges, i))
  {
    hide Quiet, InstructionFindings, AccountFindings, KeptAccountFindings, DataFindings, CellFindings, RoleFindings;
    var a := u.now.accounts[j];
    assert a in u.now.accounts;
    QuietInstruction(at, u);
    QuietAccount(at, u, a);
    QuietKept(at, u, u.was.accounts[i], a);
    QuietRoles(at, u.was.accounts[i], a);
    var before, after := AuthorityOf(u.was, name, u.wasDoc), AuthorityOf(u.now, name, u.nowDoc);
    QuietData(at, name, before, after);
    FieldSpaceIsOffsets(before.intervals, before.layout, after.intervals, after.layout);
  }

  /** Every invocation may write, under the one rule `s`, only what it could under `r`. */
  ghost predicate ColumnKept(statics: set<nat>, r: CellRule, s: CellRule) {
    forall sel: string -> nat, byte: nat :: sel(s.argument) < s.count && Resolved(statics, [s], sel, byte) ==>
      Resolved(statics, [r], sel, byte)
  }

  /** For any surviving column, moved or resized in any way: no invocation gains a
      byte exactly when the bytes it stopped governing, and the old bytes its
      cells reach, lie in the cell the old rule picked. */
  lemma ColumnKeptExact(statics: set<nat>, r: CellRule, s: CellRule)
    requires ValidRules(statics, [r]) && ValidRules(statics, [s]) && s.argument == r.argument && s.count <= r.count
    ensures ColumnKept(statics, r, s) <==> forall v :: 0 <= v < s.count ==>
      (Envelope(r) - Envelope(s)) + Cell(s, v) * Envelope(r) <= Cell(r, v)
  {
    assert r in [r] && s in [s];
    if ColumnKept(statics, r, s) {
      forall v: nat | v < s.count ensures (Envelope(r) - Envelope(s)) + Cell(s, v) * Envelope(r) <= Cell(r, v) {
        ColumnKeptAt(statics, r, s, v);
      }
    }
    if forall v :: 0 <= v < s.count ==> (Envelope(r) - Envelope(s)) + Cell(s, v) * Envelope(r) <= Cell(r, v) {
      forall sel: string -> nat, byte: nat | sel(s.argument) < s.count && Resolved(statics, [s], sel, byte)
        ensures Resolved(statics, [r], sel, byte)
      {
        var v := sel(s.argument);
        CellInEnvelope(s, v);
        assert (Envelope(r) - Envelope(s)) + Cell(s, v) * Envelope(r) <= Cell(r, v);
        assert byte in Envelope(r) ==> byte in (Envelope(r) - Envelope(s)) + Cell(s, v) * Envelope(r);
        assert byte in Cell(r, v) ==> byte in Picked(r, sel(r.argument));
      }
    }
  }

  lemma ColumnKeptAt(statics: set<nat>, r: CellRule, s: CellRule, v: nat)
    requires ColumnKept(statics, r, s) && Envelope(r) <= statics && s.argument == r.argument && v < s.count
    ensures (Envelope(r) - Envelope(s)) + Cell(s, v) * Envelope(r) <= Cell(r, v)
  {
    assert r in [r] && s in [s];
    var sel := (_: string) => v;
    forall byte | byte in (Envelope(r) - Envelope(s)) + Cell(s, v) * Envelope(r) ensures byte in Cell(r, v) {
      assert byte in Picked(s, sel(s.argument)) || byte in Ungoverned(statics, [s]);
      assert Resolved(statics, [s], sel, byte);
      assert Resolved(statics, [r], sel, byte);
    }
  }

  /** The geometry condition is not idle. A column that shrinks in place is
      reported as narrowed at most, but it frees its last cell: authority is kept
      exactly when the column had one cell or did not shrink. */
  lemma ShrunkColumnExact(statics: set<nat>, r: CellRule, s: CellRule)
    requires ValidRules(statics, [r]) && ValidRule(s)
    requires s.baseOffset == r.baseOffset && s.stride == r.stride && s.argument == r.argument
    requires s.count <= r.count && s.cellSize <= r.cellSize
    ensures ColumnKept(statics, r, s) <==> r.count == 1 || SameGeometry(r, s)
  {
    assert r in [r] && s in [s];
    if r.count == 1 || SameGeometry(r, s) {
      forall sel: string -> nat, byte: nat | sel(s.argument) < s.count && Resolved(statics, [s], sel, byte)
        ensures Resolved(statics, [r], sel, byte)
      {
        CellInEnvelope(s, sel(s.argument));
        assert byte in Envelope(r) && r.count == 1 ==> byte in Picked(r, sel(r.argument));
      }
    } else {
      var last := r.baseOffset + r.stride * (r.count - 1);
      var byte := if s.count < r.count then last else last + s.cellSize;
      var sel := (_: string) => 0;
      TimesMonotone(r.stride, 1, r.count - 1);
      TimesMonotone(r.stride, s.count - 1, r.count - 1);
      if s.count < r.count { TimesMonotone(r.stride, s.count, r.count - 1); LastCell(r.stride, s.count); }
      assert byte in Envelope(r);
      assert byte !in Envelope(s);
      assert byte !in Cell(r, 0);
      assert Resolved(statics, [s], sel, byte) && !Resolved(statics, [r], sel, byte);
    }
  }

  lemma LastCell(stride: nat, count: nat)
    requires count > 0
    ensures stride * (count - 1) + stride == stride * count
  {}

  /** The comparison itself raises nothing against such a shrinking. */
  lemma ShrinkingIsQuiet(at: string, name: string, statics: set<nat>, r: CellRule, s: CellRule)
    requires s.segment == r.segment && s.argument == r.argument && s.argumentIndex == r.argumentIndex
    ensures Quiet(OldRule(at, name, [s], statics)(r)) <==> s.count <= r.count && s.cellSize <= r.cellSize
  {
    assert RuleFor([s], r.segment) == Some(s);
    var fs := OldRule(at, name, [s], statics)(r);
    assert fs == CellSizeFindings(at, name, r, s);
    if s.count > r.count || s.cellSize > r.cellSize { assert fs[0] in fs && Blocks(fs[0]); }
  }

  /** A concrete upgrade of that kind: twenty one-byte cells become ten, and byte
      115, one selected cell before, is writable by every call after. */
  lemma FewerCellsFreeTheRest()
    ensures
      var statics := Span(Interval(100, 120));
      var r := CellRule(0, 100, 1, 1, 20, 0, "slot", "statuses");
      var s := r.(count := 10);
      var sel := (_: string) => 3;
      Resolved(statics, [s], sel, 115) && !Resolved(statics, [r], sel, 115)
  {
    var statics := Span(Interval(100, 120));
    var r := CellRule(0, 100, 1, 1, 20, 0, "slot", "statuses");
    var s := r.(count := 10);
    assert r in [r];
    assert 115 in statics && 115 in Envelope(r) && 115 !in Envelope(s) && 115 !in Cell(r, 3);
  }

  /** A column that moves in place draws no finding, whatever its base and stride become. */
  lemma MovingIsSilent(at: string, name: string, statics: set<nat>, r: CellRule, baseOffset: U32, stride: U32)
    ensures OldRule(at, name, [r.(baseOffset := baseOffset, stride := stride)], statics)(r) == []
  {
    var s := r.(baseOffset := baseOffset, stride := stride);
    assert RuleFor([s], r.segment) == Some(s);
    assert CellSizeFindings(at, name, r, s) == [] && SelectorFindings(at, name, r, s) == [];
  }

  /** Twenty one-byte cells move up by twenty bytes: byte 100, one selected cell
      before, is writable by every call after. */
  lemma MovedColumnFreesItsPlace()
    ensures
      var statics := Span(Interval(100, 140));
      var r := CellRule(0, 100, 1, 1, 20, 0, "slot", "statuses");
      var s := r.(baseOffset := 120);
      var sel := (_: string) => 3;
      Resolved(statics, [s], sel, 100) && !Resolved(statics, [r], sel, 100)
  {
    var statics := Span(Interval(100, 140));
    var r := CellRule(0, 100, 1, 1, 20, 0, "slot", "statuses");
    var s := r.(baseOffset := 120);
    assert r in [r];
    assert 100 in statics && 100 in Envelope(r) && 100 !in Envelope(s) && 100 !in Cell(r, 3) && 100 !in Cell(s, 3);
  }
}
