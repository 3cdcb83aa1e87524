/** What one instruction may write, and the findings its comparison produces:
    the specification the diff methods are proved against. */
module Authority {
  import opened Orders
  import opened Intervals
  import opened Manifest
  import opened Findings
  import opened FieldSpace
  import opened Constraints

  /** The two versions of one entry point, each with its document. */
  datatype Upgrade = Upgrade(was: Instruction, now: Instruction, wasDoc: Doc, nowDoc: Doc)

  function Note(at: string, impact: Impact, code: Code, detail: Detail): seq<Finding> {
    [Finding(impact, at, None, code, detail)]
  }

  // -------------------------------------------------------------------------
  // Data authority of one account.
  // -------------------------------------------------------------------------

  datatype DataAuthority =
    | NoWrites
    | Ranges(intervals: seq<Interval>, layout: Option<Layout>)
    | Unbounded

  /** The static ranges aimed at position `index`. Range indices are bytes, so
      a position past 255 has none. */
  function RangesAt(ranges: seq<Range>, index: nat): seq<Interval> {
    if ranges == [] then []
    else
      var last := ranges[|ranges| - 1];
      RangesAt(ranges[..|ranges| - 1], index)
      + if last.accountIndex == index then [Interval(last.offset, last.End())] else []
  }

  function LayoutOf(account: Account, doc: Doc): Option<Layout> {
    if account.layoutRef.Some? then FindLayout(doc.layouts, account.layoutRef.value) else None
  }

  ghost function AuthorityOf(ix: Instruction, name: string, doc: Doc): DataAuthority {
    match FindAccount(ix.accounts, name)
    case None => NoWrites
    case Some(k) =>
      if !ix.accounts[k].writable then NoWrites
      else if !ix.strictWrites then Unbounded
      else Ranges(Runs(Bytes(RangesAt(ix.writeRanges, k))), LayoutOf(ix.accounts[k], doc))
  }

  ghost function Touched(s: set<nat>): Field -> seq<string> {
    (f: Field) => if Runs(s * Span(FieldRange(f))) == [] then [] else [f.name]
  }

  /** Ranges as a sentence shows them, with the fields they touch when known. */
  ghost function Described(iv: seq<Interval>, layout: Option<Layout>): Part {
    match layout
    case None => BytesPart(iv, [])
    case Some(l) => BytesPart(iv, FlatMap(l.fields, Touched(Bytes(iv))))
  }

  ghost function ExtentOf(a: DataAuthority): Extent {
    match a
    case NoWrites => NotWritable
    case Unbounded => WholeAccount
    case Ranges(iv, layout) => if iv == [] then NoData else These(Described(iv, layout))
  }

  ghost function DescribedParts(iv: seq<Interval>, layout: Option<Layout>): seq<Part> {
    if iv == [] then [] else [Described(iv, layout)]
  }

  /** What authority over `iv` has that authority over `otherIv` has not: field
      by field when both layouts are known, by absolute offset otherwise. */
  ghost function RangesBeyond(iv: seq<Interval>, layout: Option<Layout>,
                              otherIv: seq<Interval>, other: Option<Layout>): seq<Part> {
    if layout.Some? && other.Some?
    then Beyond(Bytes(iv), layout.value, Bytes(otherIv), other.value)
    else DescribedParts(Runs(Bytes(iv) - Bytes(otherIv)), layout)
  }

  function PartsFinding(at: string, name: string, impact: Impact, code: Code, parts: seq<Part>): seq<Finding> {
    if parts == [] then [] else One(at, name, impact, code, Parts(parts))
  }

  function LayoutFindings(at: string, name: string, was: Option<Layout>, now: Option<Layout>): seq<Finding> {
    if was.Some? && now.Some? && was.value.name == now.value.name && was.value.layoutId != now.value.layoutId
    then One(at, name, Info, LayoutChanged, Change([was.value.name], [now.value.name]))
    else []
  }

  ghost function DataFindings(at: string, name: string, before: DataAuthority, after: DataAuthority): seq<Finding> {
    match (before, after)
    case (Unbounded, Unbounded) => []
    case (NoWrites, NoWrites) => []
    case (_, Unbounded) => One(at, name, Widened, DataAuthorityUnbounded, Plain)
    case (Unbounded, _) => One(at, name, Narrowed, DataAuthorityBounded, Writable(ExtentOf(after)))
    case (NoWrites, Ranges(iv, layout)) =>
      PartsFinding(at, name, Widened, WriteRangeWidened, DescribedParts(iv, layout))
    case (Ranges(iv, layout), NoWrites) =>
      PartsFinding(at, name, Narrowed, WriteRangeNarrowed, DescribedParts(iv, layout))
    case (Ranges(oiv, ol), Ranges(niv, nl)) =>
      PartsFinding(at, name, Widened, WriteRangeWidened, RangesBeyond(niv, nl, oiv, ol))
      + PartsFinding(at, name, Narrowed, WriteRangeNarrowed, RangesBeyond(oiv, ol, niv, nl))
      + LayoutFindings(at, name, ol, nl)
  }

  // -------------------------------------------------------------------------
  // Lamports.
  // -------------------------------------------------------------------------

  function Digits(n: nat): string {
    if n < 10 then [('0' as int + n) as char] else Digits(n / 10) + [('0' as int + n % 10) as char]
  }

  /** An index beyond the account list is named by its number. */
  function LamportName(ix: Instruction, index: nat): string {
    if index < |ix.accounts| then ix.accounts[index].name else "#" + Digits(index)
  }

  function Decimal(digits: string): nat
    requires forall c :: c in digits ==> '0' <= c <= '9'
  {
    if digits == "" then 0
    else
      var n := |digits| - 1;
      assert digits[n] in digits && forall c :: c in digits[..n] ==> c in digits;
      10 * Decimal(digits[..n]) + (digits[n] as int - '0' as int)
  }

  /** An index is printed in decimal, without leading zeros. */
  lemma {:induction false} DigitsRead(n: nat)
    ensures var digits := Digits(n);
      && digits != "" && (forall c :: c in digits ==> '0' <= c <= '9') && Decimal(digits) == n
      && (digits[0] == '0' ==> n == 0)
  {
    if n >= 10 {
      DigitsRead(n / 10);
      var front := Digits(n / 10);
      assert Digits(n)[..|front|] == front && Digits(n)[0] == front[0];
    } else {
      assert Digits(n)[..0] == "";
    }
  }

  /** An index beyond the account list is named by a hash and its decimal digits. */
  lemma OutOfRangeName(ix: Instruction, index: nat)
    requires index >= |ix.accounts|
    ensures var name := LamportName(ix, index);
      name != "" && name[0] == '#' && (forall c :: c in name[1..] ==> '0' <= c <= '9') && Decimal(name[1..]) == index
  {
    DigitsRead(index);
    assert LamportName(ix, index)[1..] == Digits(index);
  }

  /** The layout of an account is the first of the document with the name it refers to. */
  lemma LayoutOfFirst(a: Account, doc: Doc)
    ensures a.layoutRef.None? ==> LayoutOf(a, doc) == None
    ensures a.layoutRef.Some? ==>
      && (forall k: nat :: IsFirst(doc.layouts, LayoutNamedAs(a.layoutRef.value), k) ==>
            LayoutOf(a, doc) == Some(doc.layouts[k]))
      && (Nowhere(doc.layouts, LayoutNamedAs(a.layoutRef.value)) ==> LayoutOf(a, doc) == None)
  {
    if a.layoutRef.Some? { FindLayoutFirst(doc.layouts, a.layoutRef.value); }
  }

  function LamportNames(ix: Instruction): seq<string> {
    SortDedup(seq(|ix.lamportAccounts|,
                  k requires 0 <= k < |ix.lamportAccounts| => LamportName(ix, ix.lamportAccounts[k])),
              StringLe())
  }

  function LamportGain(at: string, was: seq<string>): string -> seq<Finding> {
    (n: string) => if n in was then [] else One(at, n, Widened, LamportPermissionAdded, Plain)
  }

  function LamportLoss(at: string, now: seq<string>): string -> seq<Finding> {
    (n: string) => if n in now then [] else One(at, n, Narrowed, LamportPermissionRemoved, Plain)
  }

  function NameFindings(at: string, was: seq<string>, now: seq<string>): seq<Finding> {
    FlatMap(now, LamportGain(at, was)) + FlatMap(was, LamportLoss(at, now))
  }

  function LamportFindings(at: string, was: Instruction, now: Instruction): seq<Finding> {
    NameFindings(at, LamportNames(was), LamportNames(now))
  }

  // -------------------------------------------------------------------------
  // Exact-cell rules.
  // -------------------------------------------------------------------------

  function RulesAt(rules: seq<CellRule>, index: nat): (r: seq<CellRule>)
    ensures forall x :: x in r <==> x in rules && x.accountIndex == index
  {
    if rules == [] then []
    else
      assert rules == [rules[0]] + rules[1..];
      (if rules[0].accountIndex == index then [rules[0]] else []) + RulesAt(rules[1..], index)
  }

  /** The rules of a position are listed in the order of the document. */
  lemma {:induction false} RulesAtConcat(a: seq<CellRule>, b: seq<CellRule>, index: nat)
    ensures RulesAt(a + b, index) == RulesAt(a, index) + RulesAt(b, index)
    ensures forall r: CellRule :: RulesAt([r], index) == if r.accountIndex == index then [r] else []
  {
    forall r: CellRule ensures RulesAt([r], index) == if r.accountIndex == index then [r] else [] {
      assert [r][1..] == [];
    }
    if a == [] {
      assert a + b == b;
    } else {
      assert (a + b)[0] == a[0] && (a + b)[1..] == a[1..] + b;
      RulesAtConcat(a[1..], b, index);
      Assoc(if a[0].accountIndex == index then [a[0]] else [], RulesAt(a[1..], index), RulesAt(b, index));
    }
  }

  function RuleFor(rules: seq<CellRule>, segment: string): (r: Option<CellRule>)
    ensures r.Some? ==> r.value in rules && r.value.segment == segment
    ensures r.None? ==> forall x :: x in rules ==> x.segment != segment
  {
    if rules == [] then None
    else if rules[0].segment == segment then Some(rules[0])
    else RuleFor(rules[1..], segment)
  }

  function OfSegment(segment: string): CellRule -> bool { (x: CellRule) => x.segment == segment }

  lemma {:induction false} RuleForFirst(xs: seq<CellRule>, segment: string)
    ensures forall k: nat :: IsFirst(xs, OfSegment(segment), k) ==> RuleFor(xs, segment) == Some(xs[k])
    ensures Nowhere(xs, OfSegment(segment)) ==> RuleFor(xs, segment) == None
  {
    if xs != [] && xs[0].segment != segment {
      RuleForFirst(xs[1..], segment);
      forall k: nat ensures IsFirst(xs, OfSegment(segment), k) ==> RuleFor(xs, segment) == Some(xs[k]) {
        FirstLater(xs, OfSegment(segment), k);
      }
    }
  }

  function CellNumbers(was: CellRule, now: CellRule): Detail {
    Numbers([was.count, was.cellSize, now.count, now.cellSize])
  }

  /** A static range reaches into the column the rule governed. */
  ghost predicate StillStatic(rule: CellRule, statics: set<nat>) {
    match rule.EnvelopeEnd()
    case None => false
    case Some(end) => Runs(statics * Span(Interval(rule.baseOffset, end))) != []
  }

  function CellSizeFindings(at: string, name: string, rule: CellRule, next: CellRule): seq<Finding> {
    if next.count > rule.count || next.cellSize > rule.cellSize then
      One(at, name, Widened, ExactCellRuleWidened, CellNumbers(rule, next))
    else if next.count < rule.count || next.cellSize < rule.cellSize then
      One(at, name, Narrowed, ExactCellRuleNarrowed, CellNumbers(rule, next))
    else []
  }

  function SelectorFindings(at: string, name: string, rule: CellRule, next: CellRule): seq<Finding> {
    if next.argument != rule.argument || next.argumentIndex != rule.argumentIndex
    then One(at, name, Review, ExactCellSelectorChanged,
             Selector(rule.segment, rule.argument, rule.argumentIndex, next.argument, next.argumentIndex))
    else []
  }

  ghost function OldRule(at: string, name: string, nowRules: seq<CellRule>, statics: set<nat>)
    : CellRule -> seq<Finding>
  {
    (rule: CellRule) =>
      match RuleFor(nowRules, rule.segment)
      case None =>
        if StillStatic(rule, statics)
        then One(at, name, Widened, ExactCellRuleRemoved, Change([rule.segment], []))
        else []
      case Some(next) => CellSizeFindings(at, name, rule, next) + SelectorFindings(at, name, rule, next)
  }

  function AddedRule(at: string, name: string, wasRules: seq<CellRule>): CellRule -> seq<Finding> {
    (rule: CellRule) =>
      if RuleFor(wasRules, rule.segment).Some? then []
      else One(at, name, Narrowed, ExactCellRuleAdded, Change([], [rule.segment]))
  }

  /** The position of an account, when a byte can hold it. */
  function IndexOf(ix: Instruction, name: string): Option<nat> {
    match FindAccount(ix.accounts, name)
    case None => None
    case Some(k) => if k < 256 then Some(k) else None
  }

  function AccountNamed(name: string): Account -> bool { (a: Account) => a.name == name }

  /** It is the first position of the name, if that is below 256. */
  lemma IndexOfFirst(ix: Instruction, name: string, k: nat)
    ensures IndexOf(ix, name) == Some(k) <==> k < 256 && IsFirst(ix.accounts, AccountNamed(name), k)
  {}

  ghost function CellFindings(at: string, name: string, was: Instruction, now: Instruction): seq<Finding> {
    if !was.strictWrites || !now.strictWrites then []
    else match (IndexOf(was, name), IndexOf(now, name))
      case (Some(i), Some(j)) =>
        var wasRules, nowRules := RulesAt(was.cellRules, i), RulesAt(now.cellRules, j);
        FlatMap(wasRules, OldRule(at, name, nowRules, Bytes(RangesAt(now.writeRanges, j))))
        + FlatMap(nowRules, AddedRule(at, name, wasRules))
      case _ => []
  }

  // -------------------------------------------------------------------------
  // One instruction.
  // -------------------------------------------------------------------------

  function FlagFindings(at: string, u: Upgrade): seq<Finding> {
    (if u.was.name != u.now.name
     then Note(at, Info, InstructionRenamed, Change([u.was.name], [u.now.name])) else [])
    + (if u.was.strictWrites && !u.now.strictWrites then Note(at, Widened, StrictWritesRemoved, Plain)
       else if !u.was.strictWrites && u.now.strictWrites then Note(at, Narrowed, StrictWritesAdded, Plain)
       else [])
  }

  function LamportContractFindings(at: string, u: Upgrade): seq<Finding> {
    match (u.was.mutationComplete, u.now.mutationComplete)
    case (true, false) => Note(at, Widened, LamportContractRemoved, Plain)
    case (false, true) => Note(at, Narrowed, LamportContractAdded, Plain)
    case (true, true) => LamportFindings(at, u.was, u.now)
    case (false, false) => []
  }

  function RemainingFindings(at: string, u: Upgrade): seq<Finding> {
    match (u.was.remainingMax, u.now.remainingMax)
    case (None, Some(max)) => Note(at, Widened, RemainingAccountsAdded, Numbers([max]))
    case (Some(a), Some(b)) =>
      if b > a then Note(at, Widened, RemainingAccountsRaised, Numbers([a, b]))
      else if b < a then Note(at, Narrowed, RemainingAccountsLowered, Numbers([a, b]))
      else []
    case (Some(a), None) => Note(at, Narrowed, RemainingAccountsRemoved, Numbers([a]))
    case (None, None) => []
  }

  function WasContext(u: Upgrade): Option<Context> { MatchingContext(u.was, u.wasDoc.contexts) }

  function NowContext(u: Upgrade): Option<Context> { MatchingContext(u.now, u.nowDoc.contexts) }

  function UnavailableFindings(at: string, u: Upgrade): seq<Finding> {
    if WasContext(u).Some? && NowContext(u).None?
    then Note(at, Review, ContextConstraintsUnavailable, Plain)
    else []
  }

  ghost function NewAccountFindings(at: string, u: Upgrade, a: Account): seq<Finding> {
    var c := ContextAccountOf(NowContext(u), a.name);
    if c.Some? && IsProgramKind(c.value.kind) then
      One(at, a.name, Widened, CpiProgramAdded,
          Change([], [c.value.kind] + if c.value.expectedAddress.Some? then [c.value.expectedAddress.value] else []))
    else if a.writable then
      One(at, a.name, Widened, WritableAccountAdded, Writable(ExtentOf(AuthorityOf(u.now, a.name, u.nowDoc))))
    else if a.signer then One(at, a.name, Narrowed, SignerAccountAdded, Plain)
    else One(at, a.name, Info, ReadonlyAccountAdded, Plain)
  }

  function SignerFindings(at: string, was: Account, now: Account): seq<Finding> {
    if was.signer && !now.signer then One(at, now.name, Widened, SignerDropped, Plain)
    else if !was.signer && now.signer then One(at, now.name, Narrowed, SignerRequired, Plain)
    else []
  }

  function WritableFindings(at: string, was: Account, now: Account): seq<Finding> {
    if !was.writable && now.writable then One(at, now.name, Widened, BecameWritable, Plain)
    else if was.writable && !now.writable then One(at, now.name, Narrowed, BecameReadonly, Plain)
    else []
  }

  function RoleFindings(at: string, was: Account, now: Account): seq<Finding> {
    SignerFindings(at, was, now) + WritableFindings(at, was, now)
  }

  function SharedContextFindings(at: string, u: Upgrade, name: string): seq<Finding> {
    match (ContextAccountOf(WasContext(u), name), ContextAccountOf(NowContext(u), name))
    case (Some(c), Some(d)) => ContextFindings(at, c, d)
    case _ => []
  }

  ghost function KeptAccountFindings(at: string, u: Upgrade, was: Account, now: Account): seq<Finding> {
    RoleFindings(at, was, now)
    + DataFindings(at, now.name, AuthorityOf(u.was, now.name, u.wasDoc), AuthorityOf(u.now, now.name, u.nowDoc))
    + CellFindings(at, now.name, u.was, u.now)
    + SharedContextFindings(at, u, now.name)
  }

  ghost function AccountFindings(at: string, u: Upgrade): Account -> seq<Finding> {
    (a: Account) =>
      match FindAccount(u.was.accounts, a.name)
      case None => NewAccountFindings(at, u, a)
      case Some(k) => KeptAccountFindings(at, u, u.was.accounts[k], a)
  }

  function GoneFindings(at: string, u: Upgrade): Account -> seq<Finding> {
    (a: Account) =>
      if FindAccount(u.now.accounts, a.name).Some? then []
      else if a.signer then One(at, a.name, Widened, SignerAccountRemoved, Plain)
      else One(at, a.name, Narrowed, AccountRemoved, Change([if a.writable then "writable" else "read-only"], []))
  }

  function HeaderFindings(at: string, u: Upgrade): seq<Finding> {
    FlagFindings(at, u) + LamportContractFindings(at, u) + RemainingFindings(at, u) + UnavailableFindings(at, u)
  }

  ghost function InstructionFindings(at: string, u: Upgrade): seq<Finding> {
    HeaderFindings(at, u)
    + FlatMap(u.now.accounts, AccountFindings(at, u))
    + FlatMap(u.was.accounts, GoneFindings(at, u))
  }
}
