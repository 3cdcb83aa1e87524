/** Findings as they are reported, codes and sentences spelled out, and the order
    they are reported in: field by field, as their record derives it. */
module FindingOrders {
  import opened Orders
  import opened Findings

  // -------------------------------------------------------------------------
  // Orders field by field.
  // -------------------------------------------------------------------------

  /** By a key, and among equal keys by the rest. */
  function LexBy<T, K(==)>(key: T -> K, le: (K, K) -> bool, rest: (T, T) -> bool): (T, T) -> bool {
    (a: T, b: T) => if key(a) == key(b) then rest(a, b) else le(key(a), key(b))
  }

  /** Any two elements compare, consistently; elements that tie need not be equal. */
  ghost predicate Ranks<T(!new)>(le: (T, T) -> bool) {
    && (forall a, b :: le(a, b) || le(b, a))
    && (forall a, b, c :: le(a, b) && le(b, c) ==> le(a, c))
  }

  lemma LexByRanks<T(!new), K(!new)>(key: T -> K, le: (K, K) -> bool, rest: (T, T) -> bool)
    requires TotalOrder(le) && Ranks(rest)
    ensures Ranks(LexBy(key, le, rest))
    ensures forall a, b :: LexBy(key, le, rest)(a, b) && LexBy(key, le, rest)(b, a) ==>
      key(a) == key(b) && rest(a, b) && rest(b, a)
  {
    var lex := LexBy(key, le, rest);
    forall a, b, c | lex(a, b) && lex(b, c) ensures lex(a, c) {
      assert key(a) == key(c) && key(a) != key(b) ==> le(key(b), key(a));
    }
  }

  // -------------------------------------------------------------------------
  // Reported findings.
  // -------------------------------------------------------------------------

  datatype AuthorityFinding = AuthorityFinding(
    impact: Impact, instruction: string, account: Option<string>, code: string, detail: string)

  function CodeName(c: Code): string {
    match c
    case ProgramRenamed => "program_renamed"
    case InstructionAdded => "instruction_added"
    case InstructionRemoved => "instruction_removed"
    case InstructionRenamed => "instruction_renamed"
    case FieldRuleRemoved => "field_rule_removed"
    case FieldRuleWidened => "field_rule_widened"
    case FieldRuleRespelled => "field_rule_respelled"
    case FieldRuleTightened => "field_rule_tightened"
    case FieldRuleRewritten => "field_rule_rewritten"
    case FieldRuleAdded => "field_rule_added"
    case StrictWritesRemoved => "strict_writes_removed"
    case StrictWritesAdded => "strict_writes_added"
    case LamportContractRemoved => "lamport_contract_removed"
    case LamportContractAdded => "lamport_contract_added"
    case RemainingAccountsAdded => "remaining_accounts_added"
    case RemainingAccountsRaised => "remaining_accounts_raised"
    case RemainingAccountsLowered => "remaining_accounts_lowered"
    case RemainingAccountsRemoved => "remaining_accounts_removed"
    case ContextConstraintsUnavailable => "context_constraints_unavailable"
    case CpiProgramAdded => "cpi_program_added"
    case WritableAccountAdded => "writable_account_added"
    case SignerAccountAdded => "signer_account_added"
    case ReadonlyAccountAdded => "readonly_account_added"
    case SignerDropped => "signer_dropped"
    case SignerRequired => "signer_required"
    case BecameWritable => "became_writable"
    case BecameReadonly => "became_readonly"
    case SignerAccountRemoved => "signer_account_removed"
    case AccountRemoved => "account_removed"
    case LamportPermissionAdded => "lamport_permission_added"
    case LamportPermissionRemoved => "lamport_permission_removed"
    case DataAuthorityUnbounded => "data_authority_unbounded"
    case DataAuthorityBounded => "data_authority_bounded"
    case WriteRangeWidened => "write_range_widened"
    case WriteRangeNarrowed => "write_range_narrowed"
    case LayoutChanged => "layout_changed"
    case ExactCellRuleRemoved => "exact_cell_rule_removed"
    case ExactCellRuleWidened => "exact_cell_rule_widened"
    case ExactCellRuleNarrowed => "exact_cell_rule_narrowed"
    case ExactCellSelectorChanged => "exact_cell_selector_changed"
    case ExactCellRuleAdded => "exact_cell_rule_added"
    case PdaBindingRemoved => "pda_binding_removed"
    case PdaBindingAdded => "pda_binding_added"
    case PdaSeedsChanged => "pda_seeds_changed"
    case HasOneRemoved => "has_one_removed"
    case HasOneAdded => "has_one_added"
    case ProgramBindingRemoved => "program_binding_removed"
    case CpiProgramChanged => "cpi_program_changed"
    case ProgramBindingAdded => "program_binding_added"
    case AddressBindingRemoved => "address_binding_removed"
    case AddressBindingChanged => "address_binding_changed"
    case AddressBindingAdded => "address_binding_added"
    case OwnerCheckRemoved => "owner_check_removed"
    case OwnerChanged => "owner_changed"
    case OwnerCheckAdded => "owner_check_added"
    case PolicyRemoved => "policy_removed"
    case PolicyChanged => "policy_changed"
    case PolicyAdded => "policy_added"
    case TypeCheckRemoved => "type_check_removed"
    case TypeCheckAdded => "type_check_added"
    case AccountKindChanged => "account_kind_changed"
    case BecameOptional => "became_optional"
    case BecameRequired => "became_required"
    case LifecycleChanged => "lifecycle_changed"
    case PayerChanged => "payer_changed"
  }

  /** The finding with its code spelled out and the sentence `say` makes of what it shows. */
  function Reported(say: Finding -> string, f: Finding): AuthorityFinding {
    AuthorityFinding(f.impact, f.instruction, f.account, CodeName(f.code), say(f))
  }

  function ReportedAll(say: Finding -> string, fs: seq<Finding>): seq<AuthorityFinding> {
    seq(|fs|, k requires 0 <= k < |fs| => Reported(say, fs[k]))
  }

  function ImpactRank(i: Impact): nat {
    match i case Widened => 0 case Review => 1 case Narrowed => 2 case Info => 3
  }

  function ImpactLe(): (Impact, Impact) -> bool { (a, b) => ImpactRank(a) <= ImpactRank(b) }

  /** No account comes before any account. */
  function AccountLe(): (Option<string>, Option<string>) -> bool {
    (a: Option<string>, b: Option<string>) => a.None? || (b.Some? && StringLe()(a.value, b.value))
  }

  lemma AccountLeTotal()
    ensures TotalOrder(AccountLe())
  {
    StringLeTotal();
  }

  function ByDetail(): (AuthorityFinding, AuthorityFinding) -> bool {
    (a: AuthorityFinding, b: AuthorityFinding) => StringLe()(a.detail, b.detail)
  }

  function ByCode(): (AuthorityFinding, AuthorityFinding) -> bool {
    LexBy((f: AuthorityFinding) => f.code, StringLe(), ByDetail())
  }

  function ByAccount(): (AuthorityFinding, AuthorityFinding) -> bool {
    LexBy((f: AuthorityFinding) => f.account, AccountLe(), ByCode())
  }

  function ByInstruction(): (AuthorityFinding, AuthorityFinding) -> bool {
    LexBy((f: AuthorityFinding) => f.instruction, StringLe(), ByAccount())
  }

  /** Impact, instruction, account, code, sentence. */
  function FindingLe(): (AuthorityFinding, AuthorityFinding) -> bool {
    LexBy((f: AuthorityFinding) => f.impact, ImpactLe(), ByInstruction())
  }

  /** The first field in which two findings differ decides. */
  lemma FindingLeFields(f: AuthorityFinding, g: AuthorityFinding)
    ensures FindingLe()(f, g)
         == if f.impact != g.impact then ImpactRank(f.impact) < ImpactRank(g.impact)
            else if f.instruction != g.instruction then StringLe()(f.instruction, g.instruction)
            else if f.account != g.account then
              f.account.None? || (g.account.Some? && StringLe()(f.account.value, g.account.value))
            else if f.code != g.code then StringLe()(f.code, g.code)
            else StringLe()(f.detail, g.detail)
  {
    hide StringLe;
  }

  lemma DetailRanks()
    ensures Ranks(ByDetail())
  {
    StringLeTotal();
    hide StringLe;
    var le, before := StringLe(), ByDetail();
    forall a, b ensures before(a, b) || before(b, a) { assert le(a.detail, b.detail) || le(b.detail, a.detail); }
    forall a, b, c | before(a, b) && before(b, c) ensures before(a, c) {
      assert le(a.detail, b.detail) && le(b.detail, c.detail);
    }
  }

  /** The derived order is total: findings that tie in every field are equal. */
  lemma FindingLeTotal()
    ensures TotalOrder(FindingLe())
  {
    hide LexBy, AccountLe, StringLe;
    StringLeTotal();
    DetailRanks();
    LexByRanks((f: AuthorityFinding) => f.code, StringLe(), ByDetail());
    AccountLeTotal();
    LexByRanks((f: AuthorityFinding) => f.account, AccountLe(), ByCode());
    LexByRanks((f: AuthorityFinding) => f.instruction, StringLe(), ByAccount());
    assert TotalOrder(ImpactLe());
    LexByRanks((f: AuthorityFinding) => f.impact, ImpactLe(), ByInstruction());
  }
}
