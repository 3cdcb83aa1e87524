/** Exactly when the verdict is "not widened": every demand the comparison makes,
    and no other. */
module Verdicts {
  import opened Orders
  import opened Intervals
  import opened Manifest
  import opened Findings
  import opened Constraints
  import opened Authority
  import opened Program
  import opened Report
  import opened Soundness
  import opened ExactCells
  import FieldRules

  // -------------------------------------------------------------------------
  // One entry point.
  // -------------------------------------------------------------------------

  /** Strictness and the lamport contract are kept, no lamport name is added, the
      variadic ceiling does not rise, published constraints stay published. */
  ghost predicate HeaderKept(u: Upgrade) {
    && (u.was.strictWrites ==> u.now.strictWrites)
    && (u.was.mutationComplete ==>
          u.now.mutationComplete && forall n :: n in LamportNames(u.now) ==> n in LamportNames(u.was))
    && (u.now.remainingMax.Some? ==>
          u.was.remainingMax.Some? && u.now.remainingMax.value <= u.was.remainingMax.value)
    && (WasContext(u).Some? ==> NowContext(u).Some?)
  }

  lemma QuietFlags(at: string, u: Upgrade)
    ensures Quiet(FlagFindings(at, u)) <==> (u.was.strictWrites ==> u.now.strictWrites)
  {
    var fs := FlagFindings(at, u);
    assert fs != [] ==> fs[0] in fs && fs[|fs| - 1] in fs;
  }

  lemma QuietContract(at: string, u: Upgrade)
    ensures Quiet(LamportContractFindings(at, u))
       <==> (u.was.mutationComplete ==>
               u.now.mutationComplete && forall n :: n in LamportNames(u.now) ==> n in LamportNames(u.was))
  {
    var fs := LamportContractFindings(at, u);
    QuietNames(at, LamportNames(u.was), LamportNames(u.now));
    if u.was.mutationComplete != u.now.mutationComplete { assert fs[0] in fs; }
    hide LamportNames;
  }

  lemma QuietCeiling(at: string, u: Upgrade)
    ensures Quiet(RemainingFindings(at, u))
       <==> (u.now.remainingMax.Some? ==>
               u.was.remainingMax.Some? && u.now.remainingMax.value <= u.was.remainingMax.value)
    ensures Quiet(UnavailableFindings(at, u)) <==> (WasContext(u).Some? ==> NowContext(u).Some?)
  {
    hide WasContext, NowContext;
    var max, lost := RemainingFindings(at, u), UnavailableFindings(at, u);
    assert (max != [] ==> max[0] in max) && (lost != [] ==> lost[0] in lost);
  }

  lemma QuietHeader(at: string, u: Upgrade)
    ensures Quiet(HeaderFindings(at, u)) <==> HeaderKept(u)
  {
    QuietFlags(at, u);
    QuietContract(at, u);
    QuietCeiling(at, u);
    hide FlagFindings, LamportContractFindings, RemainingFindings, UnavailableFindings, LamportNames, Quiet;
    var a, b := FlagFindings(at, u), LamportContractFindings(at, u);
    QuietConcat(a + b + RemainingFindings(at, u), UnavailableFindings(at, u));
    QuietConcat(a + b, RemainingFindings(at, u));
    QuietConcat(a, b);
  }

  /** A surviving exact-cell rule has no more cells and none larger, under the same
      selector; where one is gone no static byte reaches into its column. */
  ghost predicate CellRuleKept(statics: set<nat>, now: seq<CellRule>, r: CellRule) {
    match RuleFor(now, r.segment)
    case None => Envelope(r) !! statics
    case Some(s) =>
      s.count <= r.count && s.cellSize <= r.cellSize && s.argument == r.argument && s.argumentIndex == r.argumentIndex
  }

  lemma QuietRuleExact(at: string, name: string, now: seq<CellRule>, statics: set<nat>, r: CellRule)
    ensures Quiet(OldRule(at, name, now, statics)(r)) <==> CellRuleKept(statics, now, r)
  {
    var fs := OldRule(at, name, now, statics)(r);
    match RuleFor(now, r.segment) {
      case None =>
        StillStaticExact(r, statics);
        assert fs != [] ==> fs[0] in fs;
      case Some(s) =>
        var sizes, selectors := CellSizeFindings(at, name, r, s), SelectorFindings(at, name, r, s);
        assert fs == sizes + selectors;
        QuietConcat(sizes, selectors);
        assert (sizes != [] ==> sizes[0] in sizes) && (selectors != [] ==> selectors[0] in selectors);
    }
  }

  lemma StillStaticExact(r: CellRule, statics: set<nat>)
    ensures StillStatic(r, statics) <==> !(Envelope(r) !! statics)
  {
    match r.EnvelopeEnd() {
      case None =>
      case Some(end) =>
        var column := Span(Interval(r.baseOffset, end));
        RunsEmpty(statics * column);
        hide Span;
        assert Envelope(r) == column;
        forall x ensures x in statics * column <==> x in Envelope(r) && x in statics {}
    }
  }

  ghost predicate CellsKept(name: string, was: Instruction, now: Instruction) {
    was.strictWrites && now.strictWrites && IndexOf(was, name).Some? && IndexOf(now, name).Some? ==>
      var i, j := IndexOf(was, name).value, IndexOf(now, name).value;
      var statics := Bytes(RangesAt(now.writeRanges, j));
      forall r :: r in RulesAt(was.cellRules, i) ==> CellRuleKept(statics, RulesAt(now.cellRules, j), r)
  }

  lemma QuietAdded(at: string, name: string, was: seq<CellRule>, r: CellRule)
    ensures Quiet(AddedRule(at, name, was)(r))
  {}

  lemma QuietCells(at: string, name: string, was: Instruction, now: Instruction)
    ensures Quiet(CellFindings(at, name, was, now)) <==> CellsKept(name, was, now)
  {
    if was.strictWrites && now.strictWrites && IndexOf(was, name).Some? && IndexOf(now, name).Some? {
      var i, j := IndexOf(was, name).value, IndexOf(now, name).value;
      var wasRules, nowRules := RulesAt(was.cellRules, i), RulesAt(now.cellRules, j);
      var statics := Bytes(RangesAt(now.writeRanges, j));
      var olds, added := OldRule(at, name, nowRules, statics), AddedRule(at, name, wasRules);
      hide OldRule, AddedRule, CellRuleKept, Quiet, FlatMap, RangesAt, RulesAt, Bytes;
      forall r ensures Quiet(olds(r)) <==> CellRuleKept(statics, nowRules, r) {
        QuietRuleExact(at, name, nowRules, statics, r);
      }
      forall r ensures Quiet(added(r)) { QuietAdded(at, name, wasRules, r); }
      FlatMapQuiet(wasRules, olds);
      FlatMapQuiet(nowRules, added);
      QuietConcat(FlatMap(wasRules, olds), FlatMap(nowRules, added));
    }
  }

  /** What is asked of an account listed on both sides. */
  ghost predicate KeptAsked(u: Upgrade, was: Account, now: Account) {
    && (was.signer ==> now.signer) && (now.writable ==> was.writable)
    && ReachesNoFurther(AuthorityOf(u.now, now.name, u.nowDoc), AuthorityOf(u.was, now.name, u.wasDoc))
    && CellsKept(now.name, u.was, u.now)
    && ConstraintsAsked(ContextAccountOf(WasContext(u), now.name), ContextAccountOf(NowContext(u), now.name))
  }

  ghost predicate ConstraintsAsked(was: Option<ContextAccount>, now: Option<ContextAccount>) {
    was.Some? && now.Some? ==>
      && Keeps(was.value, now.value)
      && (was.value.payer.Some? && now.value.payer.Some? ==> was.value.payer == now.value.payer)
      && (IsUncheckedKind(was.value.kind) && IsUncheckedKind(now.value.kind) ==> was.value.kind == now.value.kind)
  }

  lemma QuietShared(at: string, u: Upgrade, name: string)
    ensures Quiet(SharedContextFindings(at, u, name))
       <==> ConstraintsAsked(ContextAccountOf(WasContext(u), name), ContextAccountOf(NowContext(u), name))
  {
    hide ContextFindings, Keeps, IsUncheckedKind, ContextAccountOf;
    match (ContextAccountOf(WasContext(u), name), ContextAccountOf(NowContext(u), name)) {
      case (Some(c), Some(d)) => QuietKeeps(at, c, d);
      case _ =>
    }
  }

  lemma QuietKeptExact(at: string, u: Upgrade, was: Account, now: Account)
    ensures Quiet(KeptAccountFindings(at, u, was, now)) <==> KeptAsked(u, was, now)
  {
    var before, after := AuthorityOf(u.was, now.name, u.wasDoc), AuthorityOf(u.now, now.name, u.nowDoc);
    QuietRoles(at, was, now);
    QuietData(at, now.name, before, after);
    QuietCells(at, now.name, u.was, u.now);
    QuietShared(at, u, now.name);
    hide RoleFindings, DataFindings, CellFindings, SharedContextFindings, Quiet, ReachesNoFurther, CellsKept,
      ConstraintsAsked, AuthorityOf;
    var a, b := RoleFindings(at, was, now), DataFindings(at, now.name, before, after);
    var c := CellFindings(at, now.name, u.was, u.now);
    QuietConcat(a + b + c, SharedContextFindings(at, u, now.name));
    QuietConcat(a + b, c);
    QuietConcat(a, b);
  }

  /** What is asked of an account the new entry point lists: an added one is
      read-only and no program. */
  ghost predicate AccountAsked(u: Upgrade, a: Account) {
    match FindAccount(u.was.accounts, a.name)
    case None => !a.writable && !IsProgram(NowContext(u), a.name)
    case Some(k) => KeptAsked(u, u.was.accounts[k], a)
  }

  /** Everything one entry point is asked; of the accounts no longer listed, that
      they did not have to sign. */
  ghost predicate EntryAsked(u: Upgrade) {
    && HeaderKept(u)
    && (forall a :: a in u.now.accounts ==> AccountAsked(u, a))
    && forall a :: a in u.was.accounts && a.signer ==> exists b :: b in u.now.accounts && b.name == a.name
  }

  lemma QuietGone(at: string, u: Upgrade, a: Account)
    ensures Quiet(GoneFindings(at, u)(a)) <==> (a.signer ==> exists b :: b in u.now.accounts && b.name == a.name)
  {
    var fs, k := GoneFindings(at, u)(a), FindAccount(u.now.accounts, a.name);
    assert fs != [] ==> fs[0] in fs;
    if k.Some? { assert u.now.accounts[k.value] in u.now.accounts; }
  }

  lemma QuietListed(at: string, u: Upgrade, a: Account)
    ensures Quiet(AccountFindings(at, u)(a)) <==> AccountAsked(u, a)
  {
    hide KeptAccountFindings, NewAccountFindings, KeptAsked, Quiet;
    match FindAccount(u.was.accounts, a.name) {
      case None => QuietNewAccount(at, u, a);
      case Some(k) => QuietKeptExact(at, u, u.was.accounts[k], a);
    }
  }

  lemma QuietEntryExact(at: string, u: Upgrade)
    ensures Quiet(InstructionFindings(at, u)) <==> EntryAsked(u)
  {
    QuietHeader(at, u);
    hide HeaderFindings, AccountFindings, GoneFindings, HeaderKept, AccountAsked, Quiet, FlatMap;
    var h, kept, gone := HeaderFindings(at, u), AccountFindings(at, u), GoneFindings(at, u);
    forall a ensures Quiet(kept(a)) <==> AccountAsked(u, a) { QuietListed(at, u, a); }
    forall a ensures Quiet(gone(a)) <==> (a.signer ==> exists b :: b in u.now.accounts && b.name == a.name) {
      QuietGone(at, u, a);
    }
    FlatMapQuiet(u.now.accounts, kept);
    FlatMapQuiet(u.was.accounts, gone);
    QuietConcat(h + FlatMap(u.now.accounts, kept), FlatMap(u.was.accounts, gone));
    QuietConcat(h, FlatMap(u.now.accounts, kept));
  }

  // -------------------------------------------------------------------------
  // Whole documents.
  // -------------------------------------------------------------------------

  /** A field that has rules keeps some, and they are no weaker as far as bounds
      or texts tell. */
  ghost predicate FieldRulesAsked(was: Doc, now: Doc) {
    var w, n := FieldRules.Entries(was), FieldRules.Entries(now);
    forall key :: key in FieldRules.KeySeq(w) ==>
      && key in FieldRules.KeySeq(n)
      && SetAsked(FieldRules.Summary(FieldRules.RulesOn(w, key)), FieldRules.Summary(FieldRules.RulesOn(n, key)))
  }

  ghost predicate SetAsked(was: FieldRules.RuleSet, now: FieldRules.RuleSet) {
    || was.texts == now.texts
    || (!FieldRules.LowerWidened(was, now) && !FieldRules.UpperWidened(was, now)
        && ((was.exact && now.exact) || forall t :: t in was.texts ==> t in now.texts))
  }

  lemma QuietOldField(w: seq<FieldRules.Entry>, n: seq<FieldRules.Entry>, key: FieldRules.FieldKey)
    ensures Quiet(FieldRules.OldField(w, n)(key))
       <==> && key in FieldRules.KeySeq(n)
            && SetAsked(FieldRules.Summary(FieldRules.RulesOn(w, key)), FieldRules.Summary(FieldRules.RulesOn(n, key)))
  {
    var was, now := FieldRules.Summary(FieldRules.RulesOn(w, key)), FieldRules.Summary(FieldRules.RulesOn(n, key));
    hide FieldRules.Summary, FieldRules.RulesOn, FieldRules.SetFindings;
    FieldRules.SetQuiet(key, was, now);
    var fs := FieldRules.OldField(w, n)(key);
    assert key !in FieldRules.KeySeq(n) ==> |fs| == 1 && Blocks(fs[0]);
    assert fs != [] ==> fs[0] in fs;
  }

  lemma QuietAddedField(w: seq<FieldRules.Entry>, n: seq<FieldRules.Entry>, key: FieldRules.FieldKey)
    ensures Quiet(FieldRules.AddedField(w, n)(key))
  {
    hide FieldRules.Summary, FieldRules.RulesOn;
  }

  lemma QuietFieldRules(was: Doc, now: Doc)
    ensures Quiet(FieldRules.RuleFindings(was, now)) <==> FieldRulesAsked(was, now)
  {
    var w, n := FieldRules.Entries(was), FieldRules.Entries(now);
    var kept, added := FieldRules.OldField(w, n), FieldRules.AddedField(w, n);
    hide FieldRules.OldField, FieldRules.AddedField, FieldRules.Entries, FieldRules.Summary, FieldRules.RulesOn;
    hide FieldRules.OrderedKeys, SetAsked, Quiet, FlatMap, FieldRules.KeySeq;
    forall key ensures key in FieldRules.OrderedKeys(w) <==> key in FieldRules.KeySeq(w) {
      FieldRules.OrderedKeysMember(w, key);
    }
    forall key
      ensures Quiet(kept(key))
         <==> && key in FieldRules.KeySeq(n)
              && SetAsked(FieldRules.Summary(FieldRules.RulesOn(w, key)),
                          FieldRules.Summary(FieldRules.RulesOn(n, key)))
    {
      QuietOldField(w, n, key);
    }
    forall key ensures Quiet(added(key)) { QuietAddedField(w, n, key); }
    FlatMapQuiet(FieldRules.OrderedKeys(w), kept);
    FlatMapQuiet(FieldRules.OrderedKeys(n), added);
    QuietConcat(FlatMap(FieldRules.OrderedKeys(w), kept), FlatMap(FieldRules.OrderedKeys(n), added));
  }

  lemma QuietEntryFindings(was: Doc, now: Doc, key: seq<nat>)
    requires key in Dispatch(now.instructions)
    ensures Quiet(EntryFindings(was, now)(key))
       <==> && key in Dispatch(was.instructions)
            && EntryAsked(Upgrade(Dispatch(was.instructions)[key], Dispatch(now.instructions)[key], was, now))
  {
    hide InstructionFindings, EntryAsked, Dispatch;
    var fs, ix := EntryFindings(was, now)(key), Dispatch(now.instructions)[key];
    if key in Dispatch(was.instructions) {
      QuietEntryExact(ix.name, Upgrade(Dispatch(was.instructions)[key], ix, was, now));
    } else {
      assert fs[0] in fs && Blocks(fs[0]);
    }
  }

  /** The verdict is "not widened" exactly when no entry point is added, every one
      that stays meets what it is asked, and so do the rules on stored values.
      Renames and removed entry points never matter. */
  lemma NotWidenedExact(say: Finding -> string, was: Doc, now: Doc)
    ensures VerdictOn(say, was, now) == NotWidened
       <==> && FieldRulesAsked(was, now)
            && forall key :: key in Dispatch(now.instructions) ==>
                 && key in Dispatch(was.instructions)
                 && EntryAsked(Upgrade(Dispatch(was.instructions)[key], Dispatch(now.instructions)[key], was, now))
  {
    VerdictExact(say, ProgramFindings(was, now));
    QuietProgram(was, now);
    QuietFieldRules(was, now);
    hide ProgramFindings, EntryFindings, Dispatch, FieldRulesAsked, EntryAsked, Quiet, FieldRules.RuleFindings,
      VerdictOf, Listed;
    forall key | key in Dispatch(now.instructions)
      ensures Quiet(EntryFindings(was, now)(key))
         <==> && key in Dispatch(was.instructions)
              && EntryAsked(Upgrade(Dispatch(was.instructions)[key], Dispatch(now.instructions)[key], was, now))
    {
      QuietEntryFindings(was, now, key);
    }
  }
}
