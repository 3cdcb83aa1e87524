/** The diff of two whole documents: entry points matched by their exact
    discriminator bytes, and the field rules. */
module Program {
  import opened Orders
  import opened Manifest
  import opened Findings
  import opened Authority
  import opened AuthorityDiff
  import FieldRules

  /** Which instruction each discriminator reaches: a later one replaces an
      earlier one with the same key. */
  function Dispatch(ixs: seq<Instruction>): map<seq<nat>, Instruction> {
    if ixs == [] then map[]
    else var last := ixs[|ixs| - 1]; Dispatch(ixs[..|ixs| - 1])[last.Key() := last]
  }

  function Keys(ixs: seq<Instruction>): seq<seq<nat>> {
    seq(|ixs|, k requires 0 <= k < |ixs| => ixs[k].Key())
  }

  /** The discriminators in map order. */
  function OrderedKeys(ixs: seq<Instruction>): seq<seq<nat>> {
    SortDedup(Keys(ixs), BytesLe())
  }

  lemma {:induction false} DispatchKeys(ixs: seq<Instruction>, key: seq<nat>)
    ensures key in Dispatch(ixs) <==> key in Keys(ixs)
    ensures key in Dispatch(ixs) ==> Dispatch(ixs)[key] in ixs && Dispatch(ixs)[key].Key() == key
  {
    if ixs != [] {
      var init, last := ixs[..|ixs| - 1], ixs[|ixs| - 1];
      DispatchKeys(init, key);
      assert Keys(ixs) == Keys(init) + [last.Key()];
      assert ixs == init + [last];
    }
  }

  lemma OrderedKeysMember(ixs: seq<Instruction>, key: seq<nat>)
    ensures key in OrderedKeys(ixs) <==> key in Dispatch(ixs)
  {
    DispatchKeys(ixs, key);
    assert OrderedKeys(ixs) == SortDedup(Keys(ixs), BytesLe());
  }

  /** Map order: discriminators byte by byte, every one once. */
  lemma OrderedKeysIncrease(ixs: seq<Instruction>)
    ensures Increasing(OrderedKeys(ixs), BytesLe())
    ensures Elements(OrderedKeys(ixs)) == Dispatch(ixs).Keys
  {
    BytesLeTotal();
    hide BytesLe;
    forall key ensures key in OrderedKeys(ixs) <==> key in Dispatch(ixs) { OrderedKeysMember(ixs, key); }
  }

  /** Every listed instruction is the one compared exactly when instructions that
      share a discriminator are identical. */
  lemma DispatchExact(ixs: seq<Instruction>)
    ensures (forall ix :: ix in ixs ==> ix.Key() in Dispatch(ixs) && Dispatch(ixs)[ix.Key()] == ix)
       <==> (forall a, b :: a in ixs && b in ixs && a.Key() == b.Key() ==> a == b)
  {
    forall ix | ix in ixs
      ensures ix.Key() in Dispatch(ixs) && Dispatch(ixs)[ix.Key()] in ixs && Dispatch(ixs)[ix.Key()].Key() == ix.Key()
    {
      var k :| 0 <= k < |ixs| && ixs[k] == ix;
      assert Keys(ixs)[k] == ix.Key();
      DispatchKeys(ixs, ix.Key());
    }
  }

  /** The bytes reach the instruction: they are its discriminator or, where it
      declares none, its tag alone. */
  predicate Answers(ix: Instruction, bytes: seq<nat>) {
    if ix.discriminator != [] then bytes == ix.discriminator else |bytes| == 1 && bytes[0] == ix.tag
  }

  /** Of the instructions that the bytes reach, the last one listed. */
  predicate Selects(ixs: seq<Instruction>, bytes: seq<nat>, k: nat) {
    k < |ixs| && Answers(ixs[k], bytes) && forall j :: k < j < |ixs| ==> !Answers(ixs[j], bytes)
  }

  predicate Unanswered(ixs: seq<Instruction>, bytes: seq<nat>) {
    forall ix :: ix in ixs ==> !Answers(ix, bytes)
  }

  lemma AnswersKey(ix: Instruction, bytes: seq<nat>)
    ensures Answers(ix, bytes) <==> ix.Key() == bytes
  {}

  /** Bytes are dispatched on exactly when some instruction answers to them, and
      then to the last that does. */
  lemma {:induction false} DispatchSelects(ixs: seq<Instruction>, bytes: seq<nat>)
    ensures bytes in Dispatch(ixs) <==> !Unanswered(ixs, bytes)
    ensures forall k: nat :: Selects(ixs, bytes, k) ==> bytes in Dispatch(ixs) && Dispatch(ixs)[bytes] == ixs[k]
  {
    if ixs != [] {
      var n := |ixs| - 1;
      DispatchSelects(ixs[..n], bytes);
      AnswersKey(ixs[n], bytes);
      assert ixs == ixs[..n] + [ixs[n]];
      forall k: nat | Selects(ixs, bytes, k) ensures bytes in Dispatch(ixs) && Dispatch(ixs)[bytes] == ixs[k] {
        if k < n {
          assert !Answers(ixs[n], bytes);
          assert Selects(ixs[..n], bytes, k);
        }
      }
    }
  }

  function WritableNames(): Account -> seq<string> { (a: Account) => if a.writable then [a.name] else [] }

  function SignerNames(): Account -> seq<string> { (a: Account) => if a.signer then [a.name] else [] }

  function NamedBefore(ixs: seq<Instruction>, name: string): Option<seq<nat>> {
    if ixs == [] then None
    else if ixs[0].name == name then Some(ixs[0].Key())
    else NamedBefore(ixs[1..], name)
  }

  function EntryDetail(was: Doc, key: seq<nat>, ix: Instruction): Detail {
    NewEntry(key, FlatMap(ix.accounts, WritableNames()), FlatMap(ix.accounts, SignerNames()),
             ix.strictWrites, NamedBefore(was.instructions, ix.name))
  }

  lemma {:induction false} NamedBeforeFirst(ixs: seq<Instruction>, name: string)
    ensures forall k: nat :: IsFirst(ixs, InstructionNamed(name), k) ==> NamedBefore(ixs, name) == Some(ixs[k].Key())
    ensures Nowhere(ixs, InstructionNamed(name)) ==> NamedBefore(ixs, name) == None
  {
    if ixs != [] && ixs[0].name != name {
      NamedBeforeFirst(ixs[1..], name);
      forall k: nat ensures IsFirst(ixs, InstructionNamed(name), k) ==> NamedBefore(ixs, name) == Some(ixs[k].Key()) {
        FirstLater(ixs, InstructionNamed(name), k);
      }
    }
  }

  function InstructionNamed(name: string): Instruction -> bool { (ix: Instruction) => ix.name == name }

  /** A new entry point is shown with the accounts it writes and those that must
      sign, and with the bytes its name answered to before, if any. */
  lemma EntryDetailShows(was: Doc, key: seq<nat>, ix: Instruction, name: string)
    ensures var d := EntryDetail(was, key, ix);
      && (name in d.writable <==> exists a :: a in ix.accounts && a.name == name && a.writable)
      && (name in d.signers <==> exists a :: a in ix.accounts && a.name == name && a.signer)
      && d.key == key && d.strict == ix.strictWrites
    ensures var rebound := EntryDetail(was, key, ix).rebound;
      && (forall k: nat :: IsFirst(was.instructions, InstructionNamed(ix.name), k) ==>
            rebound.Some? && Answers(was.instructions[k], rebound.value))
      && (Nowhere(was.instructions, InstructionNamed(ix.name)) ==> rebound == None)
  {
    FlatMapMember(ix.accounts, WritableNames(), name);
    FlatMapMember(ix.accounts, SignerNames(), name);
    NamedBeforeFirst(was.instructions, ix.name);
    forall k: nat | IsFirst(was.instructions, InstructionNamed(ix.name), k)
      ensures Answers(was.instructions[k], was.instructions[k].Key())
    {
      AnswersKey(was.instructions[k], was.instructions[k].Key());
    }
  }

  ghost function EntryFindings(was: Doc, now: Doc): seq<nat> -> seq<Finding> {
    (key: seq<nat>) =>
      if key !in Dispatch(now.instructions) then []
      else
        var ix := Dispatch(now.instructions)[key];
        if key in Dispatch(was.instructions)
        then InstructionFindings(ix.name, Upgrade(Dispatch(was.instructions)[key], ix, was, now))
        else Note(ix.name, Widened, InstructionAdded, EntryDetail(was, key, ix))
  }

  function RemovedFindings(was: Doc, now: Doc): seq<nat> -> seq<Finding> {
    (key: seq<nat>) =>
      if key in Dispatch(now.instructions) || key !in Dispatch(was.instructions) then []
      else Note(Dispatch(was.instructions)[key].name, Narrowed, InstructionRemoved, Discriminator(key))
  }

  function RenameFindings(was: Doc, now: Doc): seq<Finding> {
    if was.name == now.name then [] else Note("*", Info, ProgramRenamed, Change([was.name], [now.name]))
  }

  ghost function ProgramFindings(was: Doc, now: Doc): seq<Finding> {
    RenameFindings(was, now)
    + FlatMap(OrderedKeys(now.instructions), EntryFindings(was, now))
    + FieldRules.RuleFindings(was, now)
    + FlatMap(OrderedKeys(was.instructions), RemovedFindings(was, now))
  }

  // -------------------------------------------------------------------------
  // Which findings a discriminator draws, said of the bytes themselves.
  // -------------------------------------------------------------------------

  lemma InProgram(was: Doc, now: Doc, key: seq<nat>, f: Finding)
    ensures key in Dispatch(now.instructions) && f in EntryFindings(was, now)(key) ==> f in ProgramFindings(was, now)
    ensures key in Dispatch(was.instructions) && f in RemovedFindings(was, now)(key) ==> f in ProgramFindings(was, now)
  {
    hide EntryFindings, RemovedFindings, Dispatch, OrderedKeys, FieldRules.RuleFindings;
    OrderedKeysMember(now.instructions, key);
    OrderedKeysMember(was.instructions, key);
    FlatMapMember(OrderedKeys(now.instructions), EntryFindings(was, now), f);
    FlatMapMember(OrderedKeys(was.instructions), RemovedFindings(was, now), f);
  }

  /** New bytes that reach an instruction widen, whatever its name or tag was before. */
  lemma NewBytesWiden(was: Doc, now: Doc, bytes: seq<nat>, k: nat)
    requires Selects(now.instructions, bytes, k) && Unanswered(was.instructions, bytes)
    ensures exists detail ::
      Finding(Widened, now.instructions[k].name, None, InstructionAdded, detail) in ProgramFindings(was, now)
  {
    var ix := now.instructions[k];
    var f := Finding(Widened, ix.name, None, InstructionAdded, EntryDetail(was, bytes, ix));
    DispatchSelects(now.instructions, bytes);
    DispatchSelects(was.instructions, bytes);
    assert f in EntryFindings(was, now)(bytes);
    InProgram(was, now, bytes, f);
  }

  /** Bytes that no longer reach anything narrow. */
  lemma GoneBytesNarrow(was: Doc, now: Doc, bytes: seq<nat>, k: nat)
    requires Selects(was.instructions, bytes, k) && Unanswered(now.instructions, bytes)
    ensures Finding(Narrowed, was.instructions[k].name, None, InstructionRemoved, Discriminator(bytes))
         in ProgramFindings(was, now)
  {
    var f := Finding(Narrowed, was.instructions[k].name, None, InstructionRemoved, Discriminator(bytes));
    DispatchSelects(now.instructions, bytes);
    DispatchSelects(was.instructions, bytes);
    assert f in RemovedFindings(was, now)(bytes);
    InProgram(was, now, bytes, f);
  }

  /** Bytes that reach an instruction on both sides compare those two. */
  lemma SameBytesCompare(was: Doc, now: Doc, bytes: seq<nat>, j: nat, k: nat, f: Finding)
    requires Selects(was.instructions, bytes, j) && Selects(now.instructions, bytes, k)
    requires f in InstructionFindings(now.instructions[k].name,
                                      Upgrade(was.instructions[j], now.instructions[k], was, now))
    ensures f in ProgramFindings(was, now)
  {
    DispatchSelects(now.instructions, bytes);
    DispatchSelects(was.instructions, bytes);
    InProgram(was, now, bytes, f);
  }

  /** One instruction with tag 1 moves from discriminator 1 to discriminator 9. */
  lemma MovedDiscriminator(was: Doc, now: Doc, ix: Instruction)
    requires was.instructions == [ix.(tag := 1, discriminator := [1])]
    requires now.instructions == [ix.(tag := 1, discriminator := [9])]
    ensures exists detail :: Finding(Widened, ix.name, None, InstructionAdded, detail) in ProgramFindings(was, now)
    ensures Finding(Narrowed, ix.name, None, InstructionRemoved, Discriminator([1])) in ProgramFindings(was, now)
  {
    hide ProgramFindings;
    NewBytesWiden(was, now, [9], 0);
    GoneBytesNarrow(was, now, [1], 0);
  }

  method DiffEntry(was: Doc, now: Doc, key: seq<nat>, wasByKey: map<seq<nat>, Instruction>, ix: Instruction,
                   findings: FindingList)
    requires wasByKey == Dispatch(was.instructions)
    requires key in Dispatch(now.instructions) && Dispatch(now.instructions)[key] == ix
    modifies findings
    ensures findings.items == old(findings.items) + EntryFindings(was, now)(key)
  {
    var sink := new Sink(findings, ix.name);
    if key in wasByKey {
      DiffInstruction(Upgrade(wasByKey[key], ix, was, now), sink);
    } else {
      sink.Push(Widened, None, InstructionAdded, EntryDetail(was, key, ix));
    }
  }

  method DiffEntries(was: Doc, now: Doc, findings: FindingList)
    modifies findings
    ensures findings.items
         == old(findings.items) + FlatMap(OrderedKeys(now.instructions), EntryFindings(was, now))
  {
    hide InstructionFindings, EntryFindings, Dispatch, OrderedKeys;
    ghost var start := findings.items;
    var wasByKey, nowByKey := Dispatch(was.instructions), Dispatch(now.instructions);
    var keys := OrderedKeys(now.instructions);
    forall key | key in keys ensures key in nowByKey { OrderedKeysMember(now.instructions, key); }
    ghost var push := EntryFindings(was, now);
    for k := 0 to |keys|
      invariant findings.items == start + FlatMap(keys[..k], push)
    {
      FlatMapNext(keys, push, k);
      Assoc(start, FlatMap(keys[..k], push), push(keys[k]));
      assert keys[k] in keys;
      DiffEntry(was, now, keys[k], wasByKey, nowByKey[keys[k]], findings);
    }
    assert keys[..|keys|] == keys;
  }

  method DiffRemoved(was: Doc, now: Doc, findings: FindingList)
    modifies findings
    ensures findings.items
         == old(findings.items) + FlatMap(OrderedKeys(was.instructions), RemovedFindings(was, now))
  {
    ghost var start := findings.items;
    var wasByKey, nowByKey := Dispatch(was.instructions), Dispatch(now.instructions);
    var keys := OrderedKeys(was.instructions);
    forall key | key in keys ensures key in wasByKey { OrderedKeysMember(was.instructions, key); }
    ghost var push := RemovedFindings(was, now);
    for k := 0 to |keys|
      invariant findings.items == start + FlatMap(keys[..k], push)
    {
      FlatMapNext(keys, push, k);
      Assoc(start, FlatMap(keys[..k], push), push(keys[k]));
      assert keys[k] in keys;
      if keys[k] !in nowByKey {
        findings.Push(Finding(Narrowed, wasByKey[keys[k]].name, None, InstructionRemoved, Discriminator(keys[k])));
      }
    }
    assert keys[..|keys|] == keys;
  }

  method DiffProgram(was: Doc, now: Doc, findings: FindingList)
    modifies findings
    ensures findings.items == old(findings.items) + ProgramFindings(was, now)
  {
    ghost var start := findings.items;
    if was.name != now.name {
      findings.Push(Finding(Info, "*", None, ProgramRenamed, Change([was.name], [now.name])));
    }
    ghost var done := RenameFindings(was, now);
    assert findings.items == start + done;
    DiffEntries(was, now, findings);
    Assoc(start, done, FlatMap(OrderedKeys(now.instructions), EntryFindings(was, now)));
    done := done + FlatMap(OrderedKeys(now.instructions), EntryFindings(was, now));
    FieldRules.DiffFieldRules(was, now, findings);
    Assoc(start, done, FieldRules.RuleFindings(was, now));
    done := done + FieldRules.RuleFindings(was, now);
    DiffRemoved(was, now, findings);
    Assoc(start, done, FlatMap(OrderedKeys(was.instructions), RemovedFindings(was, now)));
  }
}
