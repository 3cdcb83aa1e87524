/** A document compared with itself: when nothing at all is reported. */
module SelfComparison {
  import opened Orders
  import opened Intervals
  import opened Manifest
  import opened Findings
  import opened FieldSpace
  import opened Constraints
  import opened Authority
  import opened Program
  import opened Report
  import FieldRules

  /** The first account of a name has the roles of all of them. */
  predicate RolesAgree(ix: Instruction) {
    forall a :: a in ix.accounts ==>
      var k := FindAccount(ix.accounts, a.name);
      k.Some? && ix.accounts[k.value].signer == a.signer && ix.accounts[k.value].writable == a.writable
  }

  predicate SameCells(r: CellRule, s: CellRule) {
    r.count == s.count && r.cellSize == s.cellSize && r.argument == s.argument && r.argumentIndex == s.argumentIndex
  }

  /** The first rule of a segment has the sizes and selector of all of them. */
  predicate RulesAgree(rules: seq<CellRule>) {
    forall r :: r in rules ==> var s := RuleFor(rules, r.segment); s.Some? && SameCells(r, s.value)
  }

  predicate CellsAgree(ix: Instruction, name: string) {
    var i := IndexOf(ix, name);
    ix.strictWrites && i.Some? ==> RulesAgree(RulesAt(ix.cellRules, i.value))
  }

  /** What is writable in any field is writable in the first field of its name. */
  ghost predicate FirstFieldsHold(s: set<nat>, layout: Layout) {
    forall f :: f in layout.fields ==> Relative(s, f) <= Matching(s, layout, f.name)
  }

  /** That, for an account with bounded writes and a known layout. */
  ghost predicate FieldsAgree(ix: Instruction, name: string, doc: Doc) {
    match AuthorityOf(ix, name, doc)
    case Ranges(iv, Some(layout)) => FirstFieldsHold(Bytes(iv), layout)
    case _ => true
  }

  ghost predicate NamesStandForAll(ix: Instruction, doc: Doc) {
    RolesAgree(ix) && forall a :: a in ix.accounts ==> CellsAgree(ix, a.name) && FieldsAgree(ix, a.name, doc)
  }

  ghost predicate FieldsStandForAll(doc: Doc) {
    forall l :: l in doc.layouts ==> FirstStandsForAll(l.fields)
  }

  function Itself(ix: Instruction, doc: Doc): Upgrade { Upgrade(ix, ix, doc, doc) }

  lemma ConcatEmpty<T>(a: seq<T>, b: seq<T>)
    ensures a + b == [] <==> a == [] && b == []
  {
    assert |a + b| == |a| + |b|;
  }

  lemma DifferenceEmpty(s: set<nat>)
    ensures s - s == {} && Runs(s - s) == []
  {
    SubtractEmpty(s, s);
  }

  // -------------------------------------------------------------------------
  // Each comparison.
  // -------------------------------------------------------------------------

  lemma SameRanges(iv: seq<Interval>, layout: Option<Layout>)
    ensures RangesBeyond(iv, layout, iv, layout) == [] <==> (layout.Some? ==> FirstFieldsHold(Bytes(iv), layout.value))
  {
    hide Beyond, Bytes, Runs;
    if layout.Some? {
      BeyondNothing(Bytes(iv), layout.value, Bytes(iv), layout.value);
    } else {
      DifferenceEmpty(Bytes(iv));
    }
  }

  lemma SameData(at: string, ix: Instruction, name: string, doc: Doc)
    ensures DataFindings(at, name, AuthorityOf(ix, name, doc), AuthorityOf(ix, name, doc)) == []
       <==> FieldsAgree(ix, name, doc)
  {
    hide RangesBeyond, RangesAt, Runs, AuthorityOf, FirstFieldsHold;
    match AuthorityOf(ix, name, doc) {
      case Ranges(iv, layout) => SameRanges(iv, layout);
      case _ =>
    }
  }

  lemma SameContext(at: string, c: ContextAccount)
    ensures ContextFindings(at, c, c) == []
  {
    FlatMapEmpty(c.hasOne, RelationDropped(at, c.name, c.hasOne));
    FlatMapEmpty(c.hasOne, RelationAdded(at, c.name, c.hasOne));
  }

  lemma SameHeader(at: string, ix: Instruction, doc: Doc)
    ensures HeaderFindings(at, Itself(ix, doc)) == []
  {
    var names := LamportNames(ix);
    hide LamportNames, MatchingContext;
    FlatMapEmpty(names, LamportGain(at, names));
    FlatMapEmpty(names, LamportLoss(at, names));
  }

  lemma SameRules(at: string, name: string, rules: seq<CellRule>, statics: set<nat>)
    ensures FlatMap(rules, OldRule(at, name, rules, statics)) == [] <==> RulesAgree(rules)
    ensures FlatMap(rules, AddedRule(at, name, rules)) == []
  {
    hide CellNumbers;
    FlatMapEmpty(rules, OldRule(at, name, rules, statics));
    FlatMapEmpty(rules, AddedRule(at, name, rules));
    forall r | r in rules
      ensures OldRule(at, name, rules, statics)(r) == [] <==> SameCells(r, RuleFor(rules, r.segment).value)
    {
      var s := RuleFor(rules, r.segment).value;
      ConcatEmpty(CellSizeFindings(at, name, r, s), SelectorFindings(at, name, r, s));
    }
  }

  lemma SameCellFindings(at: string, ix: Instruction, name: string)
    ensures CellFindings(at, name, ix, ix) == [] <==> CellsAgree(ix, name)
  {
    var i := IndexOf(ix, name);
    if ix.strictWrites && i.Some? {
      var rules, statics := RulesAt(ix.cellRules, i.value), Bytes(RangesAt(ix.writeRanges, i.value));
      SameRules(at, name, rules, statics);
      ConcatEmpty(FlatMap(rules, OldRule(at, name, rules, statics)), FlatMap(rules, AddedRule(at, name, rules)));
    }
  }

  /** One account against the first of its name. */
  lemma SameAccount(at: string, ix: Instruction, doc: Doc, a: Account)
    requires a in ix.accounts
    ensures FindAccount(ix.accounts, a.name).Some?
    ensures var first := ix.accounts[FindAccount(ix.accounts, a.name).value];
      AccountFindings(at, Itself(ix, doc))(a) == [] <==>
        && first.signer == a.signer && first.writable == a.writable
        && CellsAgree(ix, a.name) && FieldsAgree(ix, a.name, doc)
  {
    hide DataFindings, AuthorityOf, CellFindings, CellsAgree, FieldsAgree, ContextFindings, MatchingContext;
    var u, first := Itself(ix, doc), ix.accounts[FindAccount(ix.accounts, a.name).value];
    SameData(at, ix, a.name, doc);
    SameCellFindings(at, ix, a.name);
    var c := ContextAccountOf(WasContext(u), a.name);
    if c.Some? { SameContext(at, c.value); }
    var roles, cells := RoleFindings(at, first, a), CellFindings(at, a.name, ix, ix);
    var data := DataFindings(at, a.name, AuthorityOf(ix, a.name, doc), AuthorityOf(ix, a.name, doc));
    ConcatEmpty(SignerFindings(at, first, a), WritableFindings(at, first, a));
    ConcatEmpty(roles, data);
    ConcatEmpty(roles + data, cells);
    ConcatEmpty(roles + data + cells, SharedContextFindings(at, u, a.name));
  }

  lemma SameInstruction(at: string, ix: Instruction, doc: Doc)
    ensures InstructionFindings(at, Itself(ix, doc)) == [] <==> NamesStandForAll(ix, doc)
  {
    hide AccountFindings, HeaderFindings, CellsAgree, FieldsAgree;
    var u := Itself(ix, doc);
    SameHeader(at, ix, doc);
    FlatMapEmpty(ix.accounts, AccountFindings(at, u));
    FlatMapEmpty(ix.accounts, GoneFindings(at, u));
    forall a | a in ix.accounts ensures FindAccount(ix.accounts, a.name).Some? {}
    forall a | a in ix.accounts
      ensures var first := ix.accounts[FindAccount(ix.accounts, a.name).value];
        AccountFindings(at, u)(a) == [] <==>
          && first.signer == a.signer && first.writable == a.writable
          && CellsAgree(ix, a.name) && FieldsAgree(ix, a.name, doc)
    {
      SameAccount(at, ix, doc, a);
    }
    ConcatEmpty(HeaderFindings(at, u), FlatMap(ix.accounts, AccountFindings(at, u)));
    ConcatEmpty(HeaderFindings(at, u) + FlatMap(ix.accounts, AccountFindings(at, u)),
                FlatMap(ix.accounts, GoneFindings(at, u)));
  }

  lemma SameFieldRules(doc: Doc)
    ensures FieldRules.RuleFindings(doc, doc) == []
  {
    var entries := FieldRules.Entries(doc);
    hide FieldRules.Entries, FieldRules.Summary, FieldRules.RulesOn;
    FlatMapEmpty(FieldRules.OrderedKeys(entries), FieldRules.OldField(entries, entries));
    FlatMapEmpty(FieldRules.OrderedKeys(entries), FieldRules.AddedField(entries, entries));
    forall key | key in FieldRules.OrderedKeys(entries)
      ensures FieldRules.OldField(entries, entries)(key) == [] && FieldRules.AddedField(entries, entries)(key) == []
    {
      FieldRules.OrderedKeysMember(entries, key);
    }
  }

  // -------------------------------------------------------------------------
  // The whole document.
  // -------------------------------------------------------------------------

  /** A document compared with itself reports nothing exactly when, at every entry
      point, the first account of a name, the first rule of a segment and the
      first field of a name stand for all of them. */
  lemma IdenticalIsSilent(doc: Doc)
    ensures ProgramFindings(doc, doc) == []
       <==> forall key :: key in Dispatch(doc.instructions) ==> NamesStandForAll(Dispatch(doc.instructions)[key], doc)
  {
    hide InstructionFindings, NamesStandForAll, Dispatch, OrderedKeys;
    var keys, ixs := OrderedKeys(doc.instructions), doc.instructions;
    var entry, gone := EntryFindings(doc, doc), RemovedFindings(doc, doc);
    var entries, removed := FlatMap(keys, entry), FlatMap(keys, gone);
    SameFieldRules(doc);
    FlatMapEmpty(keys, entry);
    FlatMapEmpty(keys, gone);
    forall key ensures key in keys <==> key in Dispatch(ixs) { OrderedKeysMember(ixs, key); }
    forall key | key in keys ensures gone(key) == [] {}
    forall key | key in Dispatch(ixs) ensures entry(key) == [] <==> NamesStandForAll(Dispatch(ixs)[key], doc) {
      SameInstruction(Dispatch(ixs)[key].name, Dispatch(ixs)[key], doc);
    }
    if entries == [] {
      forall key | key in Dispatch(ixs) ensures NamesStandForAll(Dispatch(ixs)[key], doc) { assert entry(key) == []; }
    } else {
      var key :| key in keys && entry(key) != [];
      assert !NamesStandForAll(Dispatch(ixs)[key], doc);
    }
    hide FlatMap, FieldRules.RuleFindings;
    ConcatEmpty([], entries);
    ConcatEmpty([] + entries, []);
    ConcatEmpty([] + entries + [], removed);
  }

  /** Unique names are enough: identical manifests are not widened. */
  lemma IdenticalIsNotWidened(doc: Doc, say: Finding -> string)
    requires FieldsStandForAll(doc)
    requires forall ix :: ix in doc.instructions ==> UniqueAccounts(ix.accounts)
    requires forall ix, i :: ix in doc.instructions && 0 <= i < 256 ==> RulesAgree(RulesAt(ix.cellRules, i))
    ensures VerdictOn(say, doc, doc) == NotWidened
  {
    forall key | key in Dispatch(doc.instructions) ensures NamesStandForAll(Dispatch(doc.instructions)[key], doc) {
      var ix := Dispatch(doc.instructions)[key];
      DispatchKeys(doc.instructions, key);
      UniqueRolesAgree(ix);
      forall a | a in ix.accounts ensures FieldsAgree(ix, a.name, doc) { UniqueFieldsAgree(ix, a.name, doc); }
    }
    IdenticalIsSilent(doc);
    VerdictExact(say, []);
  }

  lemma UniqueFieldsAgree(ix: Instruction, name: string, doc: Doc)
    requires FieldsStandForAll(doc)
    ensures FieldsAgree(ix, name, doc)
  {
    match AuthorityOf(ix, name, doc) {
      case Ranges(iv, Some(layout)) =>
        hide Beyond, Bytes;
        NoGainReflexive(layout);
        assert Beyond(Bytes(iv), layout, Bytes(iv), layout) == [];
        BeyondNothing(Bytes(iv), layout, Bytes(iv), layout);
      case _ =>
    }
  }

  lemma UniqueRolesAgree(ix: Instruction)
    requires UniqueAccounts(ix.accounts)
    ensures RolesAgree(ix)
  {
    forall a | a in ix.accounts ensures FindAccount(ix.accounts, a.name).Some? {
      var k :| 0 <= k < |ix.accounts| && ix.accounts[k] == a;
    }
  }
}
