/** The upgrade diff itself: nested loops that push findings, each proved to
    push exactly what `Authority` specifies. */
module AuthorityDiff {
  import opened Orders
  import opened Intervals
  import opened Manifest
  import opened Findings
  import opened FieldSpace
  import opened Constraints
  import opened Authority

  method DescribeFields(iv: seq<Interval>, layout: Option<Layout>) returns (part: Part)
    ensures part == Described(iv, layout)
  {
    match layout {
      case None => part := BytesPart(iv, []);
      case Some(l) =>
        var names := [];
        ghost var push := Touched(Bytes(iv));
        for k := 0 to |l.fields|
          invariant names == FlatMap(l.fields[..k], push)
        {
          FlatMapNext(l.fields, push, k);
          SingleRange(FieldRange(l.fields[k]));
          var inside := Intersect(iv, [FieldRange(l.fields[k])]);
          if inside != [] { names := names + [l.fields[k].name]; }
        }
        assert l.fields[..|l.fields|] == l.fields;
        part := BytesPart(iv, names);
    }
  }

  method DescribeExtent(a: DataAuthority) returns (extent: Extent)
    ensures extent == ExtentOf(a)
  {
    match a {
      case NoWrites => extent := NotWritable;
      case Unbounded => extent := WholeAccount;
      case Ranges(iv, layout) =>
        if iv == [] {
          extent := NoData;
        } else {
          var part := DescribeFields(iv, layout);
          extent := These(part);
        }
    }
  }

  method DescribeOptional(iv: seq<Interval>, layout: Option<Layout>) returns (parts: seq<Part>)
    ensures parts == DescribedParts(iv, layout)
  {
    if iv == [] { return []; }
    var part := DescribeFields(iv, layout);
    parts := [part];
  }

  method DataAuthorityOf(ix: Instruction, name: string, doc: Doc) returns (a: DataAuthority)
    ensures a == AuthorityOf(ix, name, doc)
  {
    match FindAccount(ix.accounts, name) {
      case None => a := NoWrites;
      case Some(k) =>
        if !ix.accounts[k].writable {
          a := NoWrites;
        } else if !ix.strictWrites {
          a := Unbounded;
        } else {
          var intervals := Normalize(RangesAt(ix.writeRanges, k));
          a := Ranges(intervals, LayoutOf(ix.accounts[k], doc));
        }
    }
  }

  method RangesDelta(wasIv: seq<Interval>, wasLayout: Option<Layout>, nowIv: seq<Interval>, nowLayout: Option<Layout>)
    returns (gained: seq<Part>, lost: seq<Part>)
    ensures gained == RangesBeyond(nowIv, nowLayout, wasIv, wasLayout)
    ensures lost == RangesBeyond(wasIv, wasLayout, nowIv, nowLayout)
  {
    if wasLayout.Some? && nowLayout.Some? {
      gained, lost := FieldRelativeDelta(wasIv, wasLayout.value, nowIv, nowLayout.value);
    } else {
      var more := Subtract(nowIv, wasIv);
      gained := DescribeOptional(more, nowLayout);
      var less := Subtract(wasIv, nowIv);
      lost := DescribeOptional(less, wasLayout);
    }
  }

  method PushParts(name: string, impact: Impact, code: Code, parts: seq<Part>, sink: Sink)
    modifies sink.findings
    ensures sink.findings.items
         == old(sink.findings.items) + PartsFinding(sink.instruction, name, impact, code, parts)
  {
    if parts != [] { sink.Push(impact, Some(name), code, Parts(parts)); }
  }

  method DiffRanges(name: string, wasIv: seq<Interval>, wasLayout: Option<Layout>,
                    nowIv: seq<Interval>, nowLayout: Option<Layout>, sink: Sink)
    modifies sink.findings
    ensures sink.findings.items == old(sink.findings.items)
      + DataFindings(sink.instruction, name, Ranges(wasIv, wasLayout), Ranges(nowIv, nowLayout))
  {
    ghost var start, at := sink.findings.items, sink.instruction;
    var gained, lost := RangesDelta(wasIv, wasLayout, nowIv, nowLayout);
    PushParts(name, Widened, WriteRangeWidened, gained, sink);
    PushParts(name, Narrowed, WriteRangeNarrowed, lost, sink);
    ghost var a := PartsFinding(at, name, Widened, WriteRangeWidened, gained);
    ghost var b := PartsFinding(at, name, Narrowed, WriteRangeNarrowed, lost);
    Assoc(start, a, b);
    if wasLayout.Some? && nowLayout.Some? && wasLayout.value.name == nowLayout.value.name
       && wasLayout.value.layoutId != nowLayout.value.layoutId {
      sink.Push(Info, Some(name), LayoutChanged, Change([wasLayout.value.name], [nowLayout.value.name]));
    }
    Assoc(start, a + b, LayoutFindings(at, name, wasLayout, nowLayout));
  }

  method DiffDataAuthority(u: Upgrade, name: string, sink: Sink)
    modifies sink.findings
    ensures sink.findings.items == old(sink.findings.items)
      + DataFindings(sink.instruction, name, AuthorityOf(u.was, name, u.wasDoc), AuthorityOf(u.now, name, u.nowDoc))
  {
    var before := DataAuthorityOf(u.was, name, u.wasDoc);
    var after := DataAuthorityOf(u.now, name, u.nowDoc);
    match (before, after) {
      case (Unbounded, Unbounded) =>
      case (NoWrites, NoWrites) =>
      case (_, Unbounded) => sink.Push(Widened, Some(name), DataAuthorityUnbounded, Plain);
      case (Unbounded, _) =>
        var extent := DescribeExtent(after);
        sink.Push(Narrowed, Some(name), DataAuthorityBounded, Writable(extent));
      case (NoWrites, Ranges(iv, layout)) =>
        if iv != [] {
          var parts := DescribeOptional(iv, layout);
          sink.Push(Widened, Some(name), WriteRangeWidened, Parts(parts));
        }
      case (Ranges(iv, layout), NoWrites) =>
        if iv != [] {
          var parts := DescribeOptional(iv, layout);
          sink.Push(Narrowed, Some(name), WriteRangeNarrowed, Parts(parts));
        }
      case (Ranges(wasIv, wasLayout), Ranges(nowIv, nowLayout)) =>
        DiffRanges(name, wasIv, wasLayout, nowIv, nowLayout, sink);
    }
  }

  method DiffLamports(was: Instruction, now: Instruction, sink: Sink)
    modifies sink.findings
    ensures sink.findings.items == old(sink.findings.items) + LamportFindings(sink.instruction, was, now)
  {
    DiffNames(LamportNames(was), LamportNames(now), sink);
  }

  method DiffNames(wasNames: seq<string>, nowNames: seq<string>, sink: Sink)
    modifies sink.findings
    ensures sink.findings.items == old(sink.findings.items) + NameFindings(sink.instruction, wasNames, nowNames)
  {
    ghost var start := sink.findings.items;
    ghost var gain := LamportGain(sink.instruction, wasNames);
    for k := 0 to |nowNames|
      invariant sink.findings.items == start + FlatMap(nowNames[..k], gain)
    {
      FlatMapNext(nowNames, gain, k);
      Assoc(start, FlatMap(nowNames[..k], gain), gain(nowNames[k]));
      if nowNames[k] !in wasNames {
        sink.Push(Widened, Some(nowNames[k]), LamportPermissionAdded, Plain);
      }
    }
    assert nowNames[..|nowNames|] == nowNames;
    ghost var middle := sink.findings.items;
    ghost var loss := LamportLoss(sink.instruction, nowNames);
    for k := 0 to |wasNames|
      invariant sink.findings.items == middle + FlatMap(wasNames[..k], loss)
    {
      FlatMapNext(wasNames, loss, k);
      Assoc(middle, FlatMap(wasNames[..k], loss), loss(wasNames[k]));
      if wasNames[k] !in nowNames {
        sink.Push(Narrowed, Some(wasNames[k]), LamportPermissionRemoved, Plain);
      }
    }
    assert wasNames[..|wasNames|] == wasNames;
    Assoc(start, FlatMap(nowNames, gain), FlatMap(wasNames, loss));
  }

  method DiffOneRule(name: string, rule: CellRule, nowRules: seq<CellRule>, statics: seq<Interval>, sink: Sink)
    modifies sink.findings
    ensures sink.findings.items == old(sink.findings.items)
      + OldRule(sink.instruction, name, nowRules, Bytes(statics))(rule)
  {
    ghost var start, at := sink.findings.items, sink.instruction;
    match RuleFor(nowRules, rule.segment) {
      case None =>
        var still := false;
        if rule.EnvelopeEnd().Some? {
          var envelope := Interval(rule.baseOffset, rule.EnvelopeEnd().value);
          SingleRange(envelope);
          var meet := Intersect(statics, [envelope]);
          still := meet != [];
        }
        if still { sink.Push(Widened, Some(name), ExactCellRuleRemoved, Change([rule.segment], [])); }
      case Some(next) =>
        if next.count > rule.count || next.cellSize > rule.cellSize {
          sink.Push(Widened, Some(name), ExactCellRuleWidened, CellNumbers(rule, next));
        } else if next.count < rule.count || next.cellSize < rule.cellSize {
          sink.Push(Narrowed, Some(name), ExactCellRuleNarrowed, CellNumbers(rule, next));
        }
        assert sink.findings.items == start + CellSizeFindings(at, name, rule, next);
        if next.argument != rule.argument || next.argumentIndex != rule.argumentIndex {
          sink.Push(Review, Some(name), ExactCellSelectorChanged,
                    Selector(rule.segment, rule.argument, rule.argumentIndex, next.argument, next.argumentIndex));
        }
        Assoc(start, CellSizeFindings(at, name, rule, next), SelectorFindings(at, name, rule, next));
    }
  }

  method DiffOldRules(name: string, wasRules: seq<CellRule>, nowRules: seq<CellRule>, statics: seq<Interval>,
                      sink: Sink)
    modifies sink.findings
    ensures sink.findings.items == old(sink.findings.items)
      + FlatMap(wasRules, OldRule(sink.instruction, name, nowRules, Bytes(statics)))
  {
    ghost var start := sink.findings.items;
    ghost var push := OldRule(sink.instruction, name, nowRules, Bytes(statics));
    for k := 0 to |wasRules|
      invariant sink.findings.items == start + FlatMap(wasRules[..k], push)
    {
      FlatMapNext(wasRules, push, k);
      Assoc(start, FlatMap(wasRules[..k], push), push(wasRules[k]));
      DiffOneRule(name, wasRules[k], nowRules, statics, sink);
    }
    assert wasRules[..|wasRules|] == wasRules;
  }

  method DiffAddedRules(name: string, wasRules: seq<CellRule>, nowRules: seq<CellRule>, sink: Sink)
    modifies sink.findings
    ensures sink.findings.items
         == old(sink.findings.items) + FlatMap(nowRules, AddedRule(sink.instruction, name, wasRules))
  {
    ghost var start := sink.findings.items;
    ghost var push := AddedRule(sink.instruction, name, wasRules);
    for k := 0 to |nowRules|
      invariant sink.findings.items == start + FlatMap(nowRules[..k], push)
    {
      FlatMapNext(nowRules, push, k);
      Assoc(start, FlatMap(nowRules[..k], push), push(nowRules[k]));
      if RuleFor(wasRules, nowRules[k].segment).None? {
        sink.Push(Narrowed, Some(name), ExactCellRuleAdded, Change([], [nowRules[k].segment]));
      }
    }
    assert nowRules[..|nowRules|] == nowRules;
  }

  method DiffParametric(was: Instruction, now: Instruction, name: string, sink: Sink)
    modifies sink.findings
    ensures sink.findings.items == old(sink.findings.items) + CellFindings(sink.instruction, name, was, now)
  {
    if !was.strictWrites || !now.strictWrites { return; }
    var i, j := IndexOf(was, name), IndexOf(now, name);
    if i.None? || j.None? { return; }
    var wasRules, nowRules := RulesAt(was.cellRules, i.value), RulesAt(now.cellRules, j.value);
    var statics := Normalize(RangesAt(now.writeRanges, j.value));
    ghost var start, at := sink.findings.items, sink.instruction;
    DiffOldRules(name, wasRules, nowRules, statics, sink);
    DiffAddedRules(name, wasRules, nowRules, sink);
    Assoc(start, FlatMap(wasRules, OldRule(at, name, nowRules, Bytes(statics))),
          FlatMap(nowRules, AddedRule(at, name, wasRules)));
  }

  method DiffHeader(u: Upgrade, sink: Sink)
    modifies sink.findings
    ensures sink.findings.items == old(sink.findings.items) + HeaderFindings(sink.instruction, u)
  {
    ghost var start, at := sink.findings.items, sink.instruction;
    ghost var renamed := if u.was.name != u.now.name
      then Note(at, Info, InstructionRenamed, Change([u.was.name], [u.now.name])) else [];
    if u.was.name != u.now.name {
      sink.Push(Info, None, InstructionRenamed, Change([u.was.name], [u.now.name]));
    }
    assert sink.findings.items == start + renamed;
    match (u.was.strictWrites, u.now.strictWrites) {
      case (true, false) => sink.Push(Widened, None, StrictWritesRemoved, Plain);
      case (false, true) => sink.Push(Narrowed, None, StrictWritesAdded, Plain);
      case _ =>
    }
    assert sink.findings.items == start + FlagFindings(at, u);
    DiffLamportContract(u, sink);
    Assoc(start, FlagFindings(at, u), LamportContractFindings(at, u));
    ghost var done := FlagFindings(at, u) + LamportContractFindings(at, u);
    DiffRemaining(u, sink);
    Assoc(start, done, RemainingFindings(at, u));
    done := done + RemainingFindings(at, u);
    if WasContext(u).Some? && NowContext(u).None? {
      sink.Push(Review, None, ContextConstraintsUnavailable, Plain);
    }
    Assoc(start, done, UnavailableFindings(at, u));
  }

  method DiffLamportContract(u: Upgrade, sink: Sink)
    modifies sink.findings
    ensures sink.findings.items == old(sink.findings.items) + LamportContractFindings(sink.instruction, u)
  {
    match (u.was.mutationComplete, u.now.mutationComplete) {
      case (true, false) => sink.Push(Widened, None, LamportContractRemoved, Plain);
      case (false, true) => sink.Push(Narrowed, None, LamportContractAdded, Plain);
      case (true, true) => DiffLamports(u.was, u.now, sink);
      case (false, false) =>
    }
  }

  method DiffRemaining(u: Upgrade, sink: Sink)
    modifies sink.findings
    ensures sink.findings.items == old(sink.findings.items) + RemainingFindings(sink.instruction, u)
  {
    match (u.was.remainingMax, u.now.remainingMax) {
      case (None, Some(max)) => sink.Push(Widened, None, RemainingAccountsAdded, Numbers([max]));
      case (Some(a), Some(b)) =>
        if b > a {
          sink.Push(Widened, None, RemainingAccountsRaised, Numbers([a, b]));
        } else if b < a {
          sink.Push(Narrowed, None, RemainingAccountsLowered, Numbers([a, b]));
        }
      case (Some(a), None) => sink.Push(Narrowed, None, RemainingAccountsRemoved, Numbers([a]));
      case (None, None) =>
    }
  }

  method DiffNewAccount(u: Upgrade, a: Account, sink: Sink)
    modifies sink.findings
    ensures sink.findings.items == old(sink.findings.items) + NewAccountFindings(sink.instruction, u, a)
  {
    var c := ContextAccountOf(NowContext(u), a.name);
    if c.Some? && IsProgramKind(c.value.kind) {
      var bound := if c.value.expectedAddress.Some? then [c.value.expectedAddress.value] else [];
      sink.Push(Widened, Some(a.name), CpiProgramAdded, Change([], [c.value.kind] + bound));
    } else if a.writable {
      var authority := DataAuthorityOf(u.now, a.name, u.nowDoc);
      var extent := DescribeExtent(authority);
      sink.Push(Widened, Some(a.name), WritableAccountAdded, Writable(extent));
    } else if a.signer {
      sink.Push(Narrowed, Some(a.name), SignerAccountAdded, Plain);
    } else {
      sink.Push(Info, Some(a.name), ReadonlyAccountAdded, Plain);
    }
  }

  method DiffRoles(was: Account, now: Account, sink: Sink)
    modifies sink.findings
    ensures sink.findings.items == old(sink.findings.items) + RoleFindings(sink.instruction, was, now)
  {
    match (was.signer, now.signer) {
      case (true, false) => sink.Push(Widened, Some(now.name), SignerDropped, Plain);
      case (false, true) => sink.Push(Narrowed, Some(now.name), SignerRequired, Plain);
      case _ =>
    }
    match (was.writable, now.writable) {
      case (false, true) => sink.Push(Widened, Some(now.name), BecameWritable, Plain);
      case (true, false) => sink.Push(Narrowed, Some(now.name), BecameReadonly, Plain);
      case _ =>
    }
  }

  method DiffKeptAccount(u: Upgrade, was: Account, now: Account, sink: Sink)
    modifies sink.findings
    ensures sink.findings.items == old(sink.findings.items) + KeptAccountFindings(sink.instruction, u, was, now)
  {
    ghost var start, at := sink.findings.items, sink.instruction;
    ghost var data := DataFindings(at, now.name, AuthorityOf(u.was, now.name, u.wasDoc),
                                   AuthorityOf(u.now, now.name, u.nowDoc));
    ghost var cells := CellFindings(at, now.name, u.was, u.now);
    DiffRoles(was, now, sink);
    ghost var done := RoleFindings(at, was, now);
    DiffDataAuthority(u, now.name, sink);
    Assoc(start, done, data);
    done := done + data;
    DiffParametric(u.was, u.now, now.name, sink);
    Assoc(start, done, cells);
    done := done + cells;
    match (ContextAccountOf(WasContext(u), now.name), ContextAccountOf(NowContext(u), now.name)) {
      case (Some(c), Some(d)) => DiffContextAccount(c, d, sink);
      case _ =>
    }
    Assoc(start, done, SharedContextFindings(at, u, now.name));
  }

  method DiffAccount(u: Upgrade, a: Account, sink: Sink)
    modifies sink.findings
    ensures sink.findings.items == old(sink.findings.items) + AccountFindings(sink.instruction, u)(a)
  {
    match FindAccount(u.was.accounts, a.name) {
      case None => DiffNewAccount(u, a, sink);
      case Some(k) => DiffKeptAccount(u, u.was.accounts[k], a, sink);
    }
  }

  method DiffAccounts(u: Upgrade, sink: Sink)
    modifies sink.findings
    ensures sink.findings.items
         == old(sink.findings.items) + FlatMap(u.now.accounts, AccountFindings(sink.instruction, u))
  {
    ghost var start := sink.findings.items;
    var accounts := u.now.accounts;
    ghost var push := AccountFindings(sink.instruction, u);
    for k := 0 to |accounts|
      invariant sink.findings.items == start + FlatMap(accounts[..k], push)
    {
      FlatMapNext(accounts, push, k);
      Assoc(start, FlatMap(accounts[..k], push), push(accounts[k]));
      DiffAccount(u, accounts[k], sink);
    }
    assert accounts[..|accounts|] == accounts;
  }

  method DiffGone(u: Upgrade, sink: Sink)
    modifies sink.findings
    ensures sink.findings.items
         == old(sink.findings.items) + FlatMap(u.was.accounts, GoneFindings(sink.instruction, u))
  {
    ghost var start := sink.findings.items;
    var accounts := u.was.accounts;
    ghost var push := GoneFindings(sink.instruction, u);
    for k := 0 to |accounts|
      invariant sink.findings.items == start + FlatMap(accounts[..k], push)
    {
      FlatMapNext(accounts, push, k);
      Assoc(start, FlatMap(accounts[..k], push), push(accounts[k]));
      var a := accounts[k];
      if FindAccount(u.now.accounts, a.name).None? {
        if a.signer {
          sink.Push(Widened, Some(a.name), SignerAccountRemoved, Plain);
        } else {
          sink.Push(Narrowed, Some(a.name), AccountRemoved,
                    Change([if a.writable then "writable" else "read-only"], []));
        }
      }
    }
    assert accounts[..|accounts|] == accounts;
  }

  method DiffInstruction(u: Upgrade, sink: Sink)
    modifies sink.findings
    ensures sink.findings.items == old(sink.findings.items) + InstructionFindings(sink.instruction, u)
  {
    ghost var start, at := sink.findings.items, sink.instruction;
    DiffHeader(u, sink);
    DiffAccounts(u, sink);
    ghost var kept := FlatMap(u.now.accounts, AccountFindings(at, u));
    Assoc(start, HeaderFindings(at, u), kept);
    DiffGone(u, sink);
    Assoc(start, HeaderFindings(at, u) + kept, FlatMap(u.was.accounts, GoneFindings(at, u)));
  }
}
