/** Classified differences, the lists they are pushed to, and what a verdict means. */
module Findings {
  import opened Orders
  import opened Intervals

  datatype Impact = Widened | Review | Narrowed | Info

  datatype Code =
    | ProgramRenamed | InstructionAdded | InstructionRemoved | InstructionRenamed
    | FieldRuleRemoved | FieldRuleWidened | FieldRuleRespelled | FieldRuleTightened
    | FieldRuleRewritten | FieldRuleAdded
    | StrictWritesRemoved | StrictWritesAdded | LamportContractRemoved | LamportContractAdded
    | RemainingAccountsAdded | RemainingAccountsRaised | RemainingAccountsLowered | RemainingAccountsRemoved
    | ContextConstraintsUnavailable
    | CpiProgramAdded | WritableAccountAdded | SignerAccountAdded | ReadonlyAccountAdded
    | SignerDropped | SignerRequired | BecameWritable | BecameReadonly
    | SignerAccountRemoved | AccountRemoved
    | LamportPermissionAdded | LamportPermissionRemoved
    | DataAuthorityUnbounded | DataAuthorityBounded | WriteRangeWidened | WriteRangeNarrowed | LayoutChanged
    | ExactCellRuleRemoved | ExactCellRuleWidened | ExactCellRuleNarrowed | ExactCellSelectorChanged
    | ExactCellRuleAdded
    | PdaBindingRemoved | PdaBindingAdded | PdaSeedsChanged | HasOneRemoved | HasOneAdded
    | ProgramBindingRemoved | CpiProgramChanged | ProgramBindingAdded
    | AddressBindingRemoved | AddressBindingChanged | AddressBindingAdded
    | OwnerCheckRemoved | OwnerChanged | OwnerCheckAdded
    | PolicyRemoved | PolicyChanged | PolicyAdded
    | TypeCheckRemoved | TypeCheckAdded | AccountKindChanged
    | BecameOptional | BecameRequired | LifecycleChanged | PayerChanged

  /** One stretch of bytes named in a range finding: a piece of a field,
      counted from the field's start, or bytes outside every field. */
  datatype Part =
    | WholeField(field: string)
    | FieldPart(field: string, relative: seq<Interval>)
    | HeaderPart(run: Interval)
    | UnmappedPart(run: Interval)
    | BytesPart(ranges: seq<Interval>, fields: seq<string>)

  /** How much of an account's data a sentence says is writable. */
  datatype Extent = NotWritable | WholeAccount | NoData | These(part: Part)

  /** What the finding's sentence shows. The sentence itself is not modelled. */
  datatype Detail =
    | Plain
    | Change(before: seq<string>, after: seq<string>)
    | Numbers(numbers: seq<int>)
    | Bounds(texts: seq<seq<string>>, bounds: seq<Option<int>>)
    | Parts(parts: seq<Part>)
    | Writable(extent: Extent)
    | NewEntry(key: seq<nat>, writable: seq<string>, signers: seq<string>, strict: bool, rebound: Option<seq<nat>>)
    | Selector(segment: string, argument: string, index: nat, newArgument: string, newIndex: nat)
    | Discriminator(key: seq<nat>)

  datatype Finding = Finding(
    impact: Impact, instruction: string, account: Option<string>, code: Code, detail: Detail)

  /** The impacts that stop an upgrade from passing as "not widened". */
  predicate Blocking(i: Impact) { i == Widened || i == Review }

  predicate Blocks(f: Finding) { Blocking(f.impact) }

  /** No finding widens and none needs review. */
  ghost predicate Quiet(fs: seq<Finding>) {
    forall f :: f in fs ==> !Blocks(f)
  }

  lemma QuietConcat(a: seq<Finding>, b: seq<Finding>)
    ensures Quiet(a + b) <==> Quiet(a) && Quiet(b)
  {
    assert forall f :: f in a + b <==> f in a || f in b;
  }

  lemma FlatMapQuiet<A(!new)>(xs: seq<A>, push: A -> seq<Finding>)
    ensures Quiet(FlatMap(xs, push)) <==> forall x :: x in xs ==> Quiet(push(x))
  {
    if Quiet(FlatMap(xs, push)) {
      forall x | x in xs ensures Quiet(push(x)) {
        forall f | f in push(x) ensures !Blocks(f) { FlatMapMember(xs, push, f); }
      }
    }
    if forall x :: x in xs ==> Quiet(push(x)) {
      forall f | f in FlatMap(xs, push) ensures !Blocks(f) { FlatMapMember(xs, push, f); }
    }
  }

  /** The shared vector of findings. */
  class FindingList {
    var items: seq<Finding>

    constructor ()
      ensures items == []
    {
      items := [];
    }

    method Push(f: Finding)
      modifies this
      ensures items == old(items) + [f]
    {
      items := items + [f];
    }
  }

  /** Pushes findings of one instruction onto the shared vector. */
  class Sink {
    const findings: FindingList
    const instruction: string

    constructor (findings: FindingList, instruction: string)
      ensures this.findings == findings && this.instruction == instruction
    {
      this.findings := findings;
      this.instruction := instruction;
    }

    method Push(impact: Impact, account: Option<string>, code: Code, detail: Detail)
      modifies findings
      ensures findings.items == old(findings.items) + [Finding(impact, instruction, account, code, detail)]
    {
      findings.Push(Finding(impact, instruction, account, code, detail));
    }
  }
}
