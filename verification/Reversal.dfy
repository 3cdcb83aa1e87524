/** Swapping the two manifests swaps Widened with Narrowed and keeps Review and
    Info, finding for finding. */
module Reversal {
  import opened Orders
  import opened Manifest
  import opened Findings
  import opened Constraints
  import opened Authority

  function MirrorImpact(i: Impact): Impact {
    match i case Widened => Narrowed case Narrowed => Widened case _ => i
  }

  function MirrorCode(c: Code): Code {
    match c
    case StrictWritesRemoved => StrictWritesAdded
    case StrictWritesAdded => StrictWritesRemoved
    case LamportContractRemoved => LamportContractAdded
    case LamportContractAdded => LamportContractRemoved
    case RemainingAccountsAdded => RemainingAccountsRemoved
    case RemainingAccountsRemoved => RemainingAccountsAdded
    case RemainingAccountsRaised => RemainingAccountsLowered
    case RemainingAccountsLowered => RemainingAccountsRaised
    case SignerDropped => SignerRequired
    case SignerRequired => SignerDropped
    case BecameWritable => BecameReadonly
    case BecameReadonly => BecameWritable
    case LamportPermissionAdded => LamportPermissionRemoved
    case LamportPermissionRemoved => LamportPermissionAdded
    case DataAuthorityUnbounded => DataAuthorityBounded
    case DataAuthorityBounded => DataAuthorityUnbounded
    case WriteRangeWidened => WriteRangeNarrowed
    case WriteRangeNarrowed => WriteRangeWidened
    case PdaBindingRemoved => PdaBindingAdded
    case PdaBindingAdded => PdaBindingRemoved
    case HasOneRemoved => HasOneAdded
    case HasOneAdded => HasOneRemoved
    case ProgramBindingRemoved => ProgramBindingAdded
    case ProgramBindingAdded => ProgramBindingRemoved
    case AddressBindingRemoved => AddressBindingAdded
    case AddressBindingAdded => AddressBindingRemoved
    case OwnerCheckRemoved => OwnerCheckAdded
    case OwnerCheckAdded => OwnerCheckRemoved
    case PolicyRemoved => PolicyAdded
    case PolicyAdded => PolicyRemoved
    case TypeCheckRemoved => TypeCheckAdded
    case TypeCheckAdded => TypeCheckRemoved
    case BecameOptional => BecameRequired
    case BecameRequired => BecameOptional
    case _ => c
  }

  function MirrorDetail(d: Detail): Detail {
    match d
    case Change(a, b) => Change(b, a)
    case Numbers(ns) => if |ns| == 2 then Numbers([ns[1], ns[0]]) else d
    case _ => d
  }

  /** A bounded account's sentence shows what it is bounded to; nothing in the
      opposite finding does, so it is left out of the comparison. */
  function Shown(f: Finding): Finding {
    if f.code == DataAuthorityBounded then f.(detail := Plain) else f
  }

  function Mirror(f: Finding): Finding {
    Shown(Finding(MirrorImpact(f.impact), f.instruction, f.account, MirrorCode(f.code),
                  if f.code == DataAuthorityBounded then Plain else MirrorDetail(f.detail)))
  }

  function Mirrored(fs: seq<Finding>): seq<Finding> {
    seq(|fs|, k requires 0 <= k < |fs| => Mirror(fs[k]))
  }

  function ShownAll(fs: seq<Finding>): seq<Finding> {
    seq(|fs|, k requires 0 <= k < |fs| => Shown(fs[k]))
  }

  /** The findings of one direction are the mirrored findings of the other,
      counted with multiplicity. */
  ghost predicate Reverses(forth: seq<Finding>, back: seq<Finding>) {
    multiset(Mirrored(forth)) == multiset(ShownAll(back))
  }

  lemma MirroredConcat(a: seq<Finding>, b: seq<Finding>)
    ensures Mirrored(a + b) == Mirrored(a) + Mirrored(b)
    ensures ShownAll(a + b) == ShownAll(a) + ShownAll(b)
  {
    hide Mirror, Shown;
  }

  lemma ReversesConcat(a: seq<Finding>, b: seq<Finding>, c: seq<Finding>, d: seq<Finding>)
    requires Reverses(a, c) && Reverses(b, d)
    ensures Reverses(a + b, c + d)
  {
    MirroredConcat(a, b);
    MirroredConcat(c, d);
  }

  lemma ReversesCross(a: seq<Finding>, b: seq<Finding>, c: seq<Finding>, d: seq<Finding>)
    requires Reverses(a, d) && Reverses(b, c)
    ensures Reverses(a + b, c + d)
  {
    MirroredConcat(a, b);
    MirroredConcat(c, d);
  }

  lemma ReversesOne(f: Finding, g: Finding)
    requires Mirror(f) == Shown(g)
    ensures Reverses([f], [g])
  {
    assert Mirrored([f]) == [Mirror(f)];
    assert ShownAll([g]) == [Shown(g)];
  }

  lemma ReversesNone()
    ensures Reverses([], [])
  {
    assert Mirrored([]) == [] && ShownAll([]) == [];
  }

  /** Two findings lists of at most one finding each. */
  lemma ReversesShort(fs: seq<Finding>, gs: seq<Finding>)
    requires |fs| == |gs| <= 1 && (|fs| == 1 ==> Mirror(fs[0]) == Shown(gs[0]))
    ensures Reverses(fs, gs)
  {
    if |fs| == 1 {
      assert fs == [fs[0]] && gs == [gs[0]];
      ReversesOne(fs[0], gs[0]);
    } else {
      assert fs == [] && gs == [];
      ReversesNone();
    }
  }

  /** A finding on an account and the finding that mirrors it. */
  lemma OneReverses(at: string, account: string, impact: Impact, code: Code, detail: Detail,
                    backImpact: Impact, backCode: Code, backDetail: Detail)
    requires MirrorImpact(impact) == backImpact && MirrorCode(code) == backCode && MirrorDetail(detail) == backDetail
    requires code != DataAuthorityBounded && backCode != DataAuthorityBounded
    ensures Reverses(One(at, account, impact, code, detail), One(at, account, backImpact, backCode, backDetail))
  {
    hide Reverses;
    ReversesOne(One(at, account, impact, code, detail)[0], One(at, account, backImpact, backCode, backDetail)[0]);
  }

  lemma NoteReverses(at: string, impact: Impact, code: Code, detail: Detail,
                     backImpact: Impact, backCode: Code, backDetail: Detail)
    requires MirrorImpact(impact) == backImpact && MirrorCode(code) == backCode && MirrorDetail(detail) == backDetail
    requires code != DataAuthorityBounded && backCode != DataAuthorityBounded
    ensures Reverses(Note(at, impact, code, detail), Note(at, backImpact, backCode, backDetail))
  {
    hide Reverses;
    ReversesOne(Note(at, impact, code, detail)[0], Note(at, backImpact, backCode, backDetail)[0]);
  }

  lemma {:induction false} ReversesFlatMap<A(!new)>(xs: seq<A>, forth: A -> seq<Finding>, back: A -> seq<Finding>)
    requires forall x :: x in xs ==> Reverses(forth(x), back(x))
    ensures Reverses(FlatMap(xs, forth), FlatMap(xs, back))
  {
    if xs == [] {
      ReversesNone();
    } else {
      ReversesFlatMap(xs[..|xs| - 1], forth, back);
      ReversesConcat(FlatMap(xs[..|xs| - 1], forth), forth(xs[|xs| - 1]),
                     FlatMap(xs[..|xs| - 1], back), back(xs[|xs| - 1]));
    }
  }

  // -------------------------------------------------------------------------
  // Each comparison.
  // -------------------------------------------------------------------------

  lemma SignerReverse(at: string, was: Account, now: Account)
    requires was.name == now.name
    ensures Reverses(SignerFindings(at, was, now), SignerFindings(at, now, was))
  {
    hide Reverses, One, Note, Mirror, Shown;
    ReversesNone();
    OneReverses(at, now.name, Widened, SignerDropped, Plain, Narrowed, SignerRequired, Plain);
    OneReverses(at, now.name, Narrowed, SignerRequired, Plain, Widened, SignerDropped, Plain);
  }

  lemma WritableReverse(at: string, was: Account, now: Account)
    requires was.name == now.name
    ensures Reverses(WritableFindings(at, was, now), WritableFindings(at, now, was))
  {
    hide Reverses, One, Note, Mirror, Shown;
    ReversesNone();
    OneReverses(at, now.name, Widened, BecameWritable, Plain, Narrowed, BecameReadonly, Plain);
    OneReverses(at, now.name, Narrowed, BecameReadonly, Plain, Widened, BecameWritable, Plain);
  }

  lemma RolesReverse(at: string, was: Account, now: Account)
    requires was.name == now.name
    ensures Reverses(RoleFindings(at, was, now), RoleFindings(at, now, was))
  {
    hide Reverses;
    SignerReverse(at, was, now);
    WritableReverse(at, was, now);
    ReversesConcat(SignerFindings(at, was, now), WritableFindings(at, was, now),
                   SignerFindings(at, now, was), WritableFindings(at, now, was));
  }

  lemma NamesReverse(at: string, was: seq<string>, now: seq<string>)
    ensures Reverses(NameFindings(at, was, now), NameFindings(at, now, was))
  {
    hide Reverses;
    NameListReverse(at, was, now);
    NameListReverse(at, now, was);
    ReversesCross(FlatMap(now, LamportGain(at, was)), FlatMap(was, LamportLoss(at, now)),
                  FlatMap(was, LamportGain(at, now)), FlatMap(now, LamportLoss(at, was)));
  }

  lemma NameListReverse(at: string, xs: seq<string>, ys: seq<string>)
    ensures Reverses(FlatMap(xs, LamportGain(at, ys)), FlatMap(xs, LamportLoss(at, ys)))
    ensures Reverses(FlatMap(xs, LamportLoss(at, ys)), FlatMap(xs, LamportGain(at, ys)))
  {
    hide Reverses, One, Mirror, Shown, FlatMap;
    ReversesNone();
    var gain, loss := LamportGain(at, ys), LamportLoss(at, ys);
    forall n ensures Reverses(gain(n), loss(n)) && Reverses(loss(n), gain(n)) {
      OneReverses(at, n, Widened, LamportPermissionAdded, Plain, Narrowed, LamportPermissionRemoved, Plain);
      OneReverses(at, n, Narrowed, LamportPermissionRemoved, Plain, Widened, LamportPermissionAdded, Plain);
    }
    ReversesFlatMap(xs, gain, loss);
    ReversesFlatMap(xs, loss, gain);
  }

  lemma RemainingReverse(at: string, u: Upgrade, back: Upgrade)
    requires back == Upgrade(u.now, u.was, u.nowDoc, u.wasDoc)
    ensures Reverses(RemainingFindings(at, u), RemainingFindings(at, back))
  {
    hide Reverses, Note, Mirror, Shown;
    ReversesNone();
    match (u.was.remainingMax, u.now.remainingMax) {
      case (None, Some(m)) =>
        NoteReverses(at, Widened, RemainingAccountsAdded, Numbers([m]),
                     Narrowed, RemainingAccountsRemoved, Numbers([m]));
      case (Some(m), None) =>
        NoteReverses(at, Narrowed, RemainingAccountsRemoved, Numbers([m]),
                     Widened, RemainingAccountsAdded, Numbers([m]));
      case (Some(a), Some(b)) =>
        NoteReverses(at, Widened, RemainingAccountsRaised, Numbers([a, b]),
                     Narrowed, RemainingAccountsLowered, Numbers([b, a]));
        NoteReverses(at, Narrowed, RemainingAccountsLowered, Numbers([a, b]),
                     Widened, RemainingAccountsRaised, Numbers([b, a]));
      case (None, None) =>
    }
  }

  lemma ContractsReverse(at: string, u: Upgrade, back: Upgrade)
    requires back == Upgrade(u.now, u.was, u.nowDoc, u.wasDoc)
    ensures Reverses(LamportContractFindings(at, u), LamportContractFindings(at, back))
    ensures Reverses(RemainingFindings(at, u), RemainingFindings(at, back))
  {
    hide Reverses, Note, Mirror, Shown, NameFindings, LamportNames, RemainingFindings;
    RemainingReverse(at, u, back);
    ReversesNone();
    NoteReverses(at, Widened, LamportContractRemoved, Plain, Narrowed, LamportContractAdded, Plain);
    NoteReverses(at, Narrowed, LamportContractAdded, Plain, Widened, LamportContractRemoved, Plain);
    NamesReverse(at, LamportNames(u.was), LamportNames(u.now));
  }

  lemma PartsReverse(at: string, name: string, parts: seq<Part>)
    ensures Reverses(PartsFinding(at, name, Widened, WriteRangeWidened, parts),
                     PartsFinding(at, name, Narrowed, WriteRangeNarrowed, parts))
    ensures Reverses(PartsFinding(at, name, Narrowed, WriteRangeNarrowed, parts),
                     PartsFinding(at, name, Widened, WriteRangeWidened, parts))
  {
    hide Reverses, One, Note, Mirror, Shown;
    ReversesNone();
    OneReverses(at, name, Widened, WriteRangeWidened, Parts(parts), Narrowed, WriteRangeNarrowed, Parts(parts));
    OneReverses(at, name, Narrowed, WriteRangeNarrowed, Parts(parts), Widened, WriteRangeWidened, Parts(parts));
  }

  lemma LayoutReverse(at: string, name: string, was: Option<Layout>, now: Option<Layout>)
    ensures Reverses(LayoutFindings(at, name, was, now), LayoutFindings(at, name, now, was))
  {
    hide Reverses, One, Note, Mirror, Shown;
    ReversesNone();
    if was.Some? && now.Some? {
      var detail := Change([was.value.name], [now.value.name]);
      OneReverses(at, name, Info, LayoutChanged, detail,
                  Info, LayoutChanged, Change([now.value.name], [was.value.name]));
    }
  }

  lemma RangesReverse(at: string, name: string, gained: seq<Part>, lost: seq<Part>)
    ensures Reverses(
      PartsFinding(at, name, Widened, WriteRangeWidened, gained)
      + PartsFinding(at, name, Narrowed, WriteRangeNarrowed, lost),
      PartsFinding(at, name, Widened, WriteRangeWidened, lost)
      + PartsFinding(at, name, Narrowed, WriteRangeNarrowed, gained))
  {
    hide Reverses;
    PartsReverse(at, name, gained);
    PartsReverse(at, name, lost);
    ReversesCross(
      PartsFinding(at, name, Widened, WriteRangeWidened, gained),
      PartsFinding(at, name, Narrowed, WriteRangeNarrowed, lost),
      PartsFinding(at, name, Widened, WriteRangeWidened, lost),
      PartsFinding(at, name, Narrowed, WriteRangeNarrowed, gained));
  }

  /** The data authority of one account. */
  lemma DataReverse(at: string, name: string, before: DataAuthority, after: DataAuthority)
    ensures Reverses(DataFindings(at, name, before, after), DataFindings(at, name, after, before))
  {
    hide Reverses, RangesBeyond, DescribedParts, PartsFinding, LayoutFindings, ExtentOf, MirrorDetail;
    match (before, after) {
      case (Ranges(oiv, ol), Ranges(niv, nl)) =>
        var gained, lost := RangesBeyond(niv, nl, oiv, ol), RangesBeyond(oiv, ol, niv, nl);
        RangesReverse(at, name, gained, lost);
        LayoutReverse(at, name, ol, nl);
        ReversesConcat(
          PartsFinding(at, name, Widened, WriteRangeWidened, gained)
      + PartsFinding(at, name, Narrowed, WriteRangeNarrowed, lost),
          LayoutFindings(at, name, ol, nl),
          PartsFinding(at, name, Widened, WriteRangeWidened, lost)
          + PartsFinding(at, name, Narrowed, WriteRangeNarrowed, gained),
          LayoutFindings(at, name, nl, ol));
      case (Ranges(iv, layout), NoWrites) => PartsReverse(at, name, DescribedParts(iv, layout));
      case (NoWrites, Ranges(iv, layout)) => PartsReverse(at, name, DescribedParts(iv, layout));
      case _ => ReversesShort(DataFindings(at, name, before, after), DataFindings(at, name, after, before));
    }
  }

  lemma RelationsReverse(at: string, was: ContextAccount, now: ContextAccount)
    requires was.name == now.name
    ensures Reverses(RelationFindings(at, was, now), RelationFindings(at, now, was))
  {
    hide Reverses;
    RelationListReverse(at, was.name, was.hasOne, now.hasOne);
    RelationListReverse(at, was.name, now.hasOne, was.hasOne);
    ReversesCross(
      FlatMap(was.hasOne, RelationDropped(at, now.name, now.hasOne)),
      FlatMap(now.hasOne, RelationAdded(at, now.name, was.hasOne)),
      FlatMap(now.hasOne, RelationDropped(at, was.name, was.hasOne)),
      FlatMap(was.hasOne, RelationAdded(at, was.name, now.hasOne)));
  }

  lemma RelationListReverse(at: string, account: string, xs: seq<string>, ys: seq<string>)
    ensures Reverses(FlatMap(xs, RelationDropped(at, account, ys)), FlatMap(xs, RelationAdded(at, account, ys)))
    ensures Reverses(FlatMap(xs, RelationAdded(at, account, ys)), FlatMap(xs, RelationDropped(at, account, ys)))
  {
    hide Reverses, One, Mirror, Shown, FlatMap;
    ReversesNone();
    var dropped, added := RelationDropped(at, account, ys), RelationAdded(at, account, ys);
    forall r ensures Reverses(dropped(r), added(r)) && Reverses(added(r), dropped(r)) {
      OneReverses(at, account, Widened, HasOneRemoved, Change([r], []), Narrowed, HasOneAdded, Change([], [r]));
      OneReverses(at, account, Narrowed, HasOneAdded, Change([], [r]), Widened, HasOneRemoved, Change([r], []));
    }
    ReversesFlatMap(xs, dropped, added);
    ReversesFlatMap(xs, added, dropped);
  }

  lemma BindingReverse(at: string, account: string, codes: BindingCodes, was: Option<string>, now: Option<string>)
    requires MirrorCode(codes.removed) == codes.added && MirrorCode(codes.added) == codes.removed
    requires MirrorCode(codes.changed) == codes.changed
    requires DataAuthorityBounded !in [codes.removed, codes.changed, codes.added]
    ensures Reverses(BindingFindings(at, account, codes, was, now), BindingFindings(at, account, codes, now, was))
  {
    hide Reverses, One, Note, Mirror, Shown;
    ReversesNone();
    assert codes.removed in [codes.removed, codes.changed, codes.added];
    assert codes.changed in [codes.removed, codes.changed, codes.added];
    assert codes.added in [codes.removed, codes.changed, codes.added];
    match (was, now) {
      case (Some(a), None) =>
        OneReverses(at, account, Widened, codes.removed, Change([a], []), Narrowed, codes.added, Change([], [a]));
      case (None, Some(b)) =>
        OneReverses(at, account, Narrowed, codes.added, Change([], [b]), Widened, codes.removed, Change([b], []));
      case (Some(a), Some(b)) =>
        OneReverses(at, account, Review, codes.changed, Change([a], [b]), Review, codes.changed, Change([b], [a]));
      case (None, None) =>
    }
  }

  lemma AddressReverse(at: string, was: ContextAccount, now: ContextAccount)
    requires was.name == now.name
    ensures Reverses(AddressFindings(at, was, now), AddressFindings(at, now, was))
  {
    hide Reverses;
    assert AddressCodes(was, now) == AddressCodes(now, was);
    BindingReverse(at, now.name, AddressCodes(was, now), was.expectedAddress, now.expectedAddress);
  }

  lemma OwnerReverse(at: string, was: ContextAccount, now: ContextAccount)
    requires was.name == now.name
    ensures Reverses(OwnerFindings(at, was, now), OwnerFindings(at, now, was))
  {
    hide Reverses;
    BindingReverse(at, now.name, OWNER_CODES, was.expectedOwner, now.expectedOwner);
  }

  lemma PolicyReverse(at: string, was: ContextAccount, now: ContextAccount)
    requires was.name == now.name
    ensures Reverses(PolicyFindings(at, was, now), PolicyFindings(at, now, was))
  {
    hide Reverses;
    BindingReverse(at, now.name, POLICY_CODES, was.policyRef, now.policyRef);
  }

  lemma OptionalReverse(at: string, was: ContextAccount, now: ContextAccount)
    requires was.name == now.name
    ensures Reverses(OptionalFindings(at, was, now), OptionalFindings(at, now, was))
  {
    hide Reverses, One, Note, Mirror, Shown;
    ReversesNone();
    OneReverses(at, now.name, Widened, BecameOptional, Plain, Narrowed, BecameRequired, Plain);
    OneReverses(at, now.name, Narrowed, BecameRequired, Plain, Widened, BecameOptional, Plain);
  }

  lemma LifecycleReverse(at: string, was: ContextAccount, now: ContextAccount)
    requires was.name == now.name
    ensures Reverses(LifecycleFindings(at, was, now), LifecycleFindings(at, now, was))
  {
    hide Reverses, One, Note, Mirror, Shown;
    ReversesNone();
    var before, after := was.Lifecycle(), now.Lifecycle();
    var there, back := Change([before], [after]), Change([after], [before]);
    OneReverses(at, now.name, Widened, LifecycleChanged, there, Narrowed, LifecycleChanged, back);
    OneReverses(at, now.name, Narrowed, LifecycleChanged, there, Widened, LifecycleChanged, back);
    OneReverses(at, now.name, Review, LifecycleChanged, there, Review, LifecycleChanged, back);
  }

  lemma PayerReverse(at: string, was: ContextAccount, now: ContextAccount)
    requires was.name == now.name
    ensures Reverses(PayerFindings(at, was, now), PayerFindings(at, now, was))
  {
    hide Reverses, One, Note, Mirror, Shown;
    ReversesNone();
    if was.payer.Some? && now.payer.Some? {
      var a, b := was.payer.value, now.payer.value;
      OneReverses(at, now.name, Review, PayerChanged, Change([a], [b]), Review, PayerChanged, Change([b], [a]));
    }
  }

  lemma SeedsReverse(at: string, was: ContextAccount, now: ContextAccount)
    requires was.name == now.name
    ensures Reverses(SeedFindings(at, was, now), SeedFindings(at, now, was))
  {
    hide Reverses, One, Note, Mirror, Shown;
    ReversesNone();
    var there, back := Change(was.seeds, now.seeds), Change(now.seeds, was.seeds);
    OneReverses(at, now.name, Widened, PdaBindingRemoved, there, Narrowed, PdaBindingAdded, back);
    OneReverses(at, now.name, Narrowed, PdaBindingAdded, there, Widened, PdaBindingRemoved, back);
    OneReverses(at, now.name, Review, PdaSeedsChanged, there, Review, PdaSeedsChanged, back);
  }

  lemma KindReverse(at: string, was: ContextAccount, now: ContextAccount)
    requires was.name == now.name
    ensures Reverses(KindFindings(at, was, now), KindFindings(at, now, was))
  {
    hide Reverses, One, Mirror, Shown, IsUncheckedKind;
    ReversesNone();
    var there, back := Change([was.kind], [now.kind]), Change([now.kind], [was.kind]);
    OneReverses(at, now.name, Widened, TypeCheckRemoved, there, Narrowed, TypeCheckAdded, back);
    OneReverses(at, now.name, Narrowed, TypeCheckAdded, there, Widened, TypeCheckRemoved, back);
    OneReverses(at, now.name, Review, AccountKindChanged, there, Review, AccountKindChanged, back);
  }

  lemma UseReverses(at: string, was: ContextAccount, now: ContextAccount)
    requires was.name == now.name
    ensures Reverses(UseFindings(at, was, now), UseFindings(at, now, was))
  {
    hide Reverses;
    OptionalReverse(at, was, now);
    LifecycleReverse(at, was, now);
    PayerReverse(at, was, now);
    ReversesConcat(OptionalFindings(at, was, now), LifecycleFindings(at, was, now),
                   OptionalFindings(at, now, was), LifecycleFindings(at, now, was));
    ReversesConcat(OptionalFindings(at, was, now) + LifecycleFindings(at, was, now), PayerFindings(at, was, now),
                   OptionalFindings(at, now, was) + LifecycleFindings(at, now, was), PayerFindings(at, now, was));
  }

  function IdentityFindings(at: string, was: ContextAccount, now: ContextAccount): seq<Finding> {
    SeedFindings(at, was, now) + RelationFindings(at, was, now) + AddressFindings(at, was, now)
  }

  function CheckFindings(at: string, was: ContextAccount, now: ContextAccount): seq<Finding> {
    IdentityFindings(at, was, now) + OwnerFindings(at, was, now) + PolicyFindings(at, was, now)
  }

  lemma IdentityReverses(at: string, was: ContextAccount, now: ContextAccount)
    requires was.name == now.name
    ensures Reverses(IdentityFindings(at, was, now), IdentityFindings(at, now, was))
  {
    hide Reverses;
    SeedsReverse(at, was, now);
    RelationsReverse(at, was, now);
    AddressReverse(at, was, now);
    ReversesConcat(SeedFindings(at, was, now), RelationFindings(at, was, now),
                   SeedFindings(at, now, was), RelationFindings(at, now, was));
    ReversesConcat(SeedFindings(at, was, now) + RelationFindings(at, was, now), AddressFindings(at, was, now),
                   SeedFindings(at, now, was) + RelationFindings(at, now, was), AddressFindings(at, now, was));
  }

  lemma ChecksReverse(at: string, was: ContextAccount, now: ContextAccount)
    requires was.name == now.name
    ensures Reverses(CheckFindings(at, was, now), CheckFindings(at, now, was))
  {
    hide Reverses;
    IdentityReverses(at, was, now);
    OwnerReverse(at, was, now);
    PolicyReverse(at, was, now);
    ReversesConcat(IdentityFindings(at, was, now), OwnerFindings(at, was, now),
                   IdentityFindings(at, now, was), OwnerFindings(at, now, was));
    ReversesConcat(IdentityFindings(at, was, now) + OwnerFindings(at, was, now), PolicyFindings(at, was, now),
                   IdentityFindings(at, now, was) + OwnerFindings(at, now, was), PolicyFindings(at, now, was));
  }

  /** All constraints of one account. */
  lemma ContextReverse(at: string, was: ContextAccount, now: ContextAccount)
    requires was.name == now.name
    ensures Reverses(ContextFindings(at, was, now), ContextFindings(at, now, was))
  {
    hide Reverses;
    ChecksReverse(at, was, now);
    KindReverse(at, was, now);
    UseReverses(at, was, now);
    ReversesConcat(CheckFindings(at, was, now), KindFindings(at, was, now),
                   CheckFindings(at, now, was), KindFindings(at, now, was));
    ReversesConcat(CheckFindings(at, was, now) + KindFindings(at, was, now), UseFindings(at, was, now),
                   CheckFindings(at, now, was) + KindFindings(at, now, was), UseFindings(at, now, was));
  }

  lemma HasMirror(forth: seq<Finding>, back: seq<Finding>, f: Finding)
    requires Reverses(forth, back) && f in forth
    ensures exists g :: g in back && Shown(g) == Mirror(f)
  {
    hide Mirror, Shown;
    var k :| 0 <= k < |forth| && forth[k] == f;
    assert Mirrored(forth)[k] in multiset(Mirrored(forth));
    assert Mirror(f) in ShownAll(back);
    var j :| 0 <= j < |back| && ShownAll(back)[j] == Mirror(f);
    assert back[j] in back;
  }

  lemma IsMirror(forth: seq<Finding>, back: seq<Finding>, g: Finding)
    requires Reverses(forth, back) && g in back
    ensures exists f :: f in forth && Shown(g) == Mirror(f)
  {
    hide Mirror, Shown;
    var k :| 0 <= k < |back| && back[k] == g;
    assert ShownAll(back)[k] in multiset(ShownAll(back));
    assert Shown(g) in Mirrored(forth);
    var j :| 0 <= j < |forth| && Mirrored(forth)[j] == Shown(g);
    assert forth[j] in forth;
  }

  lemma SameCount(forth: seq<Finding>, back: seq<Finding>)
    requires Reverses(forth, back)
    ensures |forth| == |back|
  {
    assert |Mirrored(forth)| == |multiset(Mirrored(forth))|;
    assert |ShownAll(back)| == |multiset(ShownAll(back))|;
  }

  ghost predicate Has(fs: seq<Finding>, i: Impact) {
    exists f :: f in fs && f.impact == i
  }

  lemma HasMirrorImpact(forth: seq<Finding>, back: seq<Finding>, i: Impact)
    requires Reverses(forth, back)
    ensures Has(forth, i) <==> Has(back, MirrorImpact(i))
  {
    hide Reverses, MirrorCode, MirrorDetail;
    if Has(forth, i) {
      var f :| f in forth && f.impact == i;
      HasMirror(forth, back, f);
      var g :| g in back && Shown(g) == Mirror(f);
    }
    if Has(back, MirrorImpact(i)) {
      var g :| g in back && g.impact == MirrorImpact(i);
      IsMirror(forth, back, g);
      var f :| f in forth && Shown(g) == Mirror(f);
    }
  }

  /** So a comparison that reverses widens one way exactly when it narrows the
      other way, and asks for review both ways or neither. */
  lemma WidenedIsNarrowedBack(forth: seq<Finding>, back: seq<Finding>)
    requires Reverses(forth, back)
    ensures |forth| == |back|
    ensures Has(forth, Widened) <==> Has(back, Narrowed)
    ensures Has(forth, Narrowed) <==> Has(back, Widened)
    ensures Has(forth, Review) <==> Has(back, Review)
  {
    SameCount(forth, back);
    HasMirrorImpact(forth, back, Widened);
    HasMirrorImpact(forth, back, Narrowed);
    HasMirrorImpact(forth, back, Review);
  }
}
