# Hopper and Grillo: authority, commitments and wire formats

A Dafny model of the parts of the repository whose job is to be right for every
input: the upgrade-authority diff that decides whether a new manifest grants
more than an old one, the canonical commitment over a mutation contract and the
SHA-256 under it, the bounded instruction wire format as three generated clients
and the on-chain decoder see it, the composed dynamic-tail codec, and four
algorithms of the release gates.

Code that updates state in the source is imperative here: sinks and byte vectors
are classes, loops are loops, in-place arrays are arrays. Every such method is
proved against a specification function, and the theorems are about those
functions.

## Files

| file | content |
|---|---|
| `Arithmetic.dfy`, `Orders.dfy` | powers of two; total orders; sort-then-dedup as the one increasing list of a set |
| `Intervals.dfy` | byte ranges; normalize, subtract, intersect against the canonical list of a set |
| `Manifest.dfy`, `Findings.dfy`, `FindingOrders.dfy` | the documents compared, the findings pushed, how they are reported and in which order |
| `FieldSpace.dfy` | write sets compared field by field and outside all fields |
| `Constraints.dfy` | context accounts: matching, comparison, meaning |
| `Authority.dfy`, `AuthorityDiff.dfy` | what each comparison pushes; the loops that push it |
| `FieldRules.dfy` | value rules folded per field |
| `Program.dfy`, `Report.dfy` | whole documents; canonical report, verdict, approval |
| `Rights.dfy`, `Soundness.dfy` | rights without reference to the diff; soundness |
| `Reported.dfy` | what each single change draws, said of the change and of positions |
| `Verdicts.dfy` | exactly when the verdict is not-widened |
| `SilentUpgrades.dfy` | upgrades that grant something in silence: what the conditions of soundness exclude |
| `SelfComparison.dfy` | a document compared with itself |
| `ExactCells.dfy` | exact-cell rules, per invocation |
| `Reversal.dfy` | swapping the two manifests |
| `Octets.dfy`, `Constants.dfy`, `Sha256.dfy` | little-endian bytes; the hash constants from the roots of primes; the hash |
| `Commitment.dfy` | the canonical encoding and its decoder |
| `Codecs.dfy`, `Wire.dfy`, `WireLaws.dfy` | field codecs in sequence; the typed client; its laws |
| `Strings.dfy`, `Clients.dfy` | UTF-8, strict and lossy; the buffer-filling and part-joining clients |
| `OnChain.dfy` | the decoder inside the program, element checks included |
| `TailCodec.dfy` | composed codecs |
| `Masking.dfy`, `MaskingLaws.dfy` | the lexer that blanks comments and literals |
| `Reach.dfy`, `Propagation.dfy`, `Epoch.dfy` | breadth-first search, break propagation, epoch schedules |

## Where the code and its intent differ

Each of these is stated by a lemma with the exact condition, a concrete input, or both.

- An account that was to be created (`init`) and is now used as it exists draws
  only a narrowing finding, yet existing accounts the old release refused are now
  accepted (`Constraints.InitDroppedIsSilent`); likewise an unchecked, signer or system
  account that was to be resized or closed and is now merely used need not exist any
  more (`Constraints.ActionDroppedIsSilent`).
- A context payer that disappears (`Some` to `None`) draws no finding
  (`Constraints.PayerDroppedIsSilent`). Silence implies that a constraint set
  shrank exactly when none of these happened (`Constraints.QuietContextSound`).
- A context that matches by its declared instruction list but no longer lists an
  account draws no finding for that account; silence preserves an account's
  constraints exactly when they are still published, with the demands above
  (`Soundness.ConstraintsSound`); `SilentUpgrades.UnlistedIsNotWidened` is such an
  upgrade for any constraints.
- Of accounts with one name in the new document only the first is compared, so a
  second one can take bytes of its own (`SilentUpgrades.SecondOfNameIsNotWidened`).
  Silence means that nothing new is granted exactly when no later account of a
  name brings a byte (`Soundness.InstructionSound`, `Soundness.NotWidenedIsSound`).
- An added read-only account draws no blocking finding unless the context of the
  new instruction lists it as a program (`Soundness.QuietNewAccount`); programs
  that a context lists are never new in silence (`Soundness.ProgramsSound`).
- Renaming one unchecked account kind to another asks for review although nothing
  widened; it is the only blocking context finding of which that is true, a
  replaced payer apart (`Constraints.ContextExact`).
- An exact-cell column that moves draws no finding, and one that shrinks in place
  is reported as narrowed; the bytes it no longer governs fall back to the static
  ranges. `ExactCells.InvocationsExact` says when no invocation gains a byte for
  arbitrary rules, `ExactCells.ColumnKeptExact` for one column;
  `ExactCells.MovedColumnFreesItsPlace` and `ExactCells.FewerCellsFreeTheRest`
  are concrete upgrades that gain some.
- With a field name used twice for different bytes, a document compared with
  itself can report a gain (`FieldSpace.NoGainReflexive`,
  `SelfComparison.IdenticalIsSilent`).
- Of instructions that share a discriminator only the last is compared, which
  loses nothing exactly when they are identical (`Program.DispatchExact`);
  otherwise an added instruction can be writable and the verdict "not widened"
  (`SilentUpgrades.ShadowedGrantIsNotWidened`).
- The TypeScript client wraps a number that does not fit and replaces half of a
  surrogate pair in a string, where the Python client raises: they agree exactly
  when every number is in range and every string well formed, unless both refuse
  (`Clients.BuildersAgreeExactly`); a nonce of 65536 is sent as zero
  (`Clients.NonceWraps`), a lone half as U+FFFD (`Clients.LoneHalfReplaced`).
- The client decoder does not check elements, the program does: it accepts what
  the client decoder accepts exactly when every element passes its check
  (`OnChain.EndsAgree`); a submitted order whose side is tagged 9 is decoded by the
  client and refused by the program (`OnChain.MalformedOrderRefused`).
- The epoch arithmetic is right for more schedules than those with
  `first_slot = 32 * (2^first_epoch - 1)`: `Epoch.PartitionsExactly` gives all of them.

## Model

| member | source | states |
|---|---|---|
| Orders.IncreasingUnique | crates/grillo-manifest/src/authority.rs:332-334 | a finite set has only one strictly increasing listing, whatever the total order |
| Orders.SortDedupCanonical | crates/grillo-manifest/src/authority.rs:332-334 | sort then dedup gives equal lists exactly for equal element sets |
| Orders.LexExact | crates/grillo-manifest/src/authority.rs:332-334 | the order of strings, keys and digests is the dictionary order: a prefix first, else the first difference decides |
| Orders.StringLeExact | crates/grillo-manifest/src/authority.rs:332-334 | strings are ordered by their first different character, the smaller first |
| Orders.BytesLeExact | crates/grillo-manifest/src/authority.rs:529-532 | discriminators are ordered by their first different byte, the smaller first |
| Intervals.Normalize | crates/grillo-manifest/src/authority.rs:1653-1664 | for unsorted, overlapping, empty ranges: the canonical list of the bytes covered |
| Intervals.Subtract | crates/grillo-manifest/src/authority.rs:1666-1687 | the canonical list of the set difference |
| Intervals.Intersect | crates/grillo-manifest/src/authority.rs:1689-1701 | the canonical list of the set intersection |
| Intervals.CanonicalUnique | crates/grillo-manifest/src/authority.rs:1653-1664 | nonempty, ordered, separated lists covering the same bytes are the same list |
| Intervals.SubtractEmpty | crates/grillo-manifest/src/authority.rs:1666-1687 | subtraction is empty exactly on inclusion |
| FieldSpace.FieldRelativeDelta | crates/grillo-manifest/src/authority.rs:1164-1243 | the gained and lost parts are what each side has in field space beyond the other |
| FieldSpace.BeyondEmpty | crates/grillo-manifest/src/authority.rs:1164-1243 | no gain is reported exactly when every site reached (a byte of a named field, or a byte outside all fields) was reached before |
| FieldSpace.NoGainTransitive | crates/grillo-manifest/src/authority.rs:1164-1243 | no gain over two upgrades is no gain over both |
| FieldSpace.NoGainReflexive | crates/grillo-manifest/src/authority.rs:1164-1243 | a document has no gain over itself, for every write set, exactly when each field name stands for one stretch of bytes |
| FieldSpace.MovedFieldsKeepAuthority | crates/grillo-manifest/src/authority.rs:1164-1243 | fields that move together with their ranges gain and lose nothing |
| FieldSpace.RunLabelExact | crates/grillo-manifest/src/authority.rs:1226-1239 | bytes outside all fields are named header bytes exactly when they end before every field |
| FieldSpace.FieldLabelExact | crates/grillo-manifest/src/authority.rs:1164-1225 | a field is named as a whole exactly when all its bytes are meant |
| Constraints.QuietBinding | crates/grillo-manifest/src/authority.rs:1459-1489 | a binding draws no blocking finding exactly when one that was there is unchanged |
| Constraints.ContextChosen | crates/grillo-manifest/src/authority.rs:1427-1449 | by positions: the first context that declares the instruction, else the first structural match of its name, else the only structural match, else none |
| Constraints.MatchesRoles | crates/grillo-manifest/src/authority.rs:1414-1425 | a structural match has the same list of names and roles, and no two different layouts |
| Constraints.CanonicalOne | crates/grillo-manifest/src/authority.rs:1406-1412 | of one character: letters and digits are kept, capitals lowered, the rest dropped |
| Constraints.CanonicalConcat | crates/grillo-manifest/src/authority.rs:1406-1412 | names are canonicalised character by character |
| Constraints.DiffContextAccount | crates/grillo-manifest/src/authority.rs:1491-1647 | pushes exactly the specified findings, constraint by constraint |
| Constraints.ContextExact | crates/grillo-manifest/src/authority.rs:1491-1647 | the findings do not block and no demand on the account's existence is gone exactly when the new constraints accept no presented account the old refused, no payer was replaced and no unchecked kind renamed |
| Constraints.QuietContextSound | crates/grillo-manifest/src/authority.rs:1491-1647 | under silence the constraint set, payer included, shrank exactly when the payer was not dropped and no demand on the account's existence is gone |
| Constraints.InitDroppedIsSilent | crates/grillo-manifest/src/authority.rs:1620-1633 | every `init` account turned `existing` is silent, and an existing account refused before is accepted |
| Constraints.ActionDroppedIsSilent | crates/grillo-manifest/src/authority.rs:1620-1633 | every account of a loose kind to be resized or closed turned `existing` is silent, and an account that does not exist, refused before, is accepted |
| Constraints.PayerDroppedIsSilent | crates/grillo-manifest/src/authority.rs:1635-1646 | every payer that disappears is silent, and a payer refused before is accepted |
| FieldRules.FieldRuleSets | crates/grillo-manifest/src/authority.rs:589-628 | the map built in nested loops holds, for exactly the fields with a rule, the summary of their rules |
| FieldRules.DiffFieldRules | crates/grillo-manifest/src/authority.rs:633-735 | pushes exactly the specified findings, key by key in map order |
| FieldRules.KeyLeTotal | crates/grillo-manifest/src/authority.rs:589-628 | keys are totally ordered by layout, then by field |
| FieldRules.OrderedKeysIncrease | crates/grillo-manifest/src/authority.rs:633-735 | map order: the fields that have a rule, strictly increasing |
| FieldRules.FoldMeets | crates/grillo-manifest/src/authority.rs:603-620 | the folded bounds are met by exactly the values that meet every rule's bounds |
| FieldRules.ExactSetIsItsBounds | crates/grillo-manifest/src/authority.rs:589-628 | the bounds of an exact set admit exactly what all its rules admit |
| FieldRules.RulesQuietSound | crates/grillo-manifest/src/authority.rs:633-735 | without a blocking finding every field admits only values admitted before, exact sets or not |
| FieldRules.ExactSetsDecided | crates/grillo-manifest/src/authority.rs:661-717 | between exact sets that admit something, a finding blocks exactly when some value is newly admitted |
| AuthorityDiff.DataAuthorityOf | crates/grillo-manifest/src/authority.rs:1028-1051 | none, unbounded, or the canonical ranges of the account's position with its layout |
| AuthorityDiff.DiffDataAuthority | crates/grillo-manifest/src/authority.rs:1053-1159 | pushes exactly the specified data findings |
| AuthorityDiff.DiffLamports | crates/grillo-manifest/src/authority.rs:961-995 | pushes exactly the names gained, then the names lost |
| AuthorityDiff.DiffParametric | crates/grillo-manifest/src/authority.rs:1284-1400 | pushes exactly the specified exact-cell findings |
| AuthorityDiff.DiffInstruction | crates/grillo-manifest/src/authority.rs:758-959 | pushes exactly the specified findings of one entry point, in order |
| Reported.HeaderDraws | crates/grillo-manifest/src/authority.rs:758-850 | a rename, a change of strictness or of the lamport contract each draw their own finding and impact |
| Reported.CeilingDraws | crates/grillo-manifest/src/authority.rs:758-850 | each change of the variadic ceiling, and constraints published no longer, draw theirs |
| Reported.ListingDraws | crates/grillo-manifest/src/authority.rs:852-959 | an account added (program, writable, signer, read-only) or removed (signer or not) draws its own finding |
| Reported.RolesDraw | crates/grillo-manifest/src/authority.rs:896-925 | each change of a role draws its own finding and impact |
| Reported.RelationsDraw | crates/grillo-manifest/src/authority.rs:1491-1530 | each has_one dropped widens and each one added narrows |
| Reported.SeedsDraw | crates/grillo-manifest/src/authority.rs:1491-1530 | seeds dropped widen, seeds added narrow, other seeds are for review |
| Reported.BindingsDraw | crates/grillo-manifest/src/authority.rs:1459-1489 | address, owner and policy each draw their own three codes; an address of a program draws those of a program |
| Reported.KindDraws | crates/grillo-manifest/src/authority.rs:1575-1605 | a type check removed widens, one added narrows, another kind is for review; unchecked is read off the kind name |
| Reported.UseDraws | crates/grillo-manifest/src/authority.rs:1605-1647 | optionality, lifecycle and payer draw theirs; an undeclared lifecycle is that of an existing account |
| Reported.ContextChangeReported | crates/grillo-manifest/src/authority.rs:852-959 | a change between the contexts chosen by position is among the findings of the instruction |
| Reported.HasOneDropped | crates/grillo-manifest/src/authority.rs:1491-1530 | a has_one dropped in the context so chosen, of a kept account, is reported as widened |
| Reported.PauseDropsHasOne | crates/grillo-manifest/src/authority.rs:1427-1449 | two contexts match; the one of the handler's name is compared and its dropped has_one reported |
| Authority.LayoutOfFirst | crates/grillo-manifest/src/authority.rs:1046-1050 | the layout of an account is the first of the document with the name referred to |
| Authority.DigitsRead | crates/grillo-manifest/src/authority.rs:961-995 | an out-of-range lamport index is printed in decimal, without leading zeros |
| Authority.OutOfRangeName | crates/grillo-manifest/src/authority.rs:961-995 | an index beyond the account list is named by a hash and its decimal digits |
| Authority.IndexOfFirst | crates/grillo-manifest/src/authority.rs:433-438 | the position of an account is the first of its name, if a byte holds it |
| Authority.RulesAtConcat | crates/grillo-manifest/src/authority.rs:1284-1300 | the rules of a position are taken in the order of the document |
| Authority.RuleForFirst | crates/grillo-manifest/src/authority.rs:1300-1330 | a segment's rule is the first with that segment |
| Manifest.FindFieldFirst | crates/grillo-manifest/src/authority.rs:1164-1225 | a field is looked up as the first of its name |
| Manifest.FindContextAccountFirst | crates/grillo-manifest/src/authority.rs:1450-1458 | a context account is looked up as the first of its name |
| Program.DiffProgram | crates/grillo-manifest/src/authority.rs:518-572 | pushes exactly the specified findings of the whole document |
| Program.DispatchSelects | crates/grillo-manifest/src/authority.rs:425-431 | bytes dispatch to the last instruction that answers to them: by its discriminator or, without one, by its tag |
| Program.NewBytesWiden | crates/grillo-manifest/src/authority.rs:539-556 | bytes that reach an instruction now and reached none before draw a widening instruction_added of its name |
| Program.GoneBytesNarrow | crates/grillo-manifest/src/authority.rs:557-572 | bytes that reach nothing any more draw a narrowing instruction_removed |
| Program.SameBytesCompare | crates/grillo-manifest/src/authority.rs:539-556 | bytes that reach an instruction on both sides have those two compared |
| Program.MovedDiscriminator | crates/grillo-manifest/src/authority.rs:425-431 | one instruction moved from discriminator 1 to 9 under tag 1 is reported as added and as removed |
| Program.EntryDetailShows | crates/grillo-manifest/src/authority.rs:539-556 | a new entry point is shown with exactly its writable accounts, its signers and the bytes its name answered to |
| Program.OrderedKeysIncrease | crates/grillo-manifest/src/authority.rs:529-532 | map order: the discriminators dispatched on, strictly increasing byte by byte |
| Program.DispatchExact | crates/grillo-manifest/src/authority.rs:529-532 | every listed instruction is the one compared exactly when those that share a discriminator are identical |
| SilentUpgrades.ShadowIsNotCompared | crates/grillo-manifest/src/authority.rs:529-532 | whatever an instruction grants, listing it before one with its discriminator draws no finding |
| SilentUpgrades.ShadowedGrantIsNotWidened | crates/grillo-manifest/src/authority.rs:529-532 | a concrete document whose shadowed instruction writes an account no instruction wrote, with the verdict not-widened |
| SilentUpgrades.SecondOfNameIsNotWidened | crates/grillo-manifest/src/authority.rs:852-925 | a concrete document whose second account of a name takes a byte nobody could write, with the verdict not-widened |
| SilentUpgrades.UnlistedIsNotWidened | crates/grillo-manifest/src/authority.rs:1431-1449 | whatever a declared context demanded of an account, no longer listing it is not-widened and lifts a demand |
| FindingOrders.FindingLeTotal | crates/grillo-manifest/src/authority.rs:97-111 | the field-by-field derived order of reported findings is total |
| FindingOrders.FindingLeFields | crates/grillo-manifest/src/authority.rs:97-111 | the first field in which two findings differ decides: impact, instruction, account, code, sentence |
| Report.Between | crates/grillo-manifest/src/authority.rs:320-345 | the report holds both program labels, the hex digests of both canonical texts, and the diff's findings rendered, in derived order, without repeats |
| Report.HexInjective | crates/grillo-manifest/src/authority.rs:1712-1721 | different digests print differently |
| Report.HexDigitIs | crates/grillo-manifest/src/authority.rs:1712-1721 | digits are decimal, then lower-case letters |
| Report.ReportCanonical | crates/grillo-manifest/src/authority.rs:332-334 | findings that render to the same set, and only they, are listed alike, whatever order they were pushed in |
| Report.VerdictExact | crates/grillo-manifest/src/authority.rs:197-213 | whatever the sentences, sorting and merging keep the verdict of the findings as pushed |
| Report.WidenedFirst | crates/grillo-manifest/src/authority.rs:72-84 | the derived order lists findings by impact, Widened first, none twice |
| Report.ApprovalExact | crates/grillo-manifest/src/authority.rs:227-257 | approval succeeds exactly for the schema, both digests and every blocking finding listed; a refusal names exactly the ones left out |
| Soundness.QuietRoles | crates/grillo-manifest/src/authority.rs:896-925 | roles are silent exactly when no signature is dropped and nothing becomes writable |
| Soundness.QuietData | crates/grillo-manifest/src/authority.rs:1053-1159 | the data comparison is silent exactly when authority reaches no further |
| Soundness.BytesSound | crates/grillo-manifest/src/authority.rs:1053-1159 | under silence every byte the first account of a name may have written had a writable counterpart in field space |
| Soundness.WritableSound | crates/grillo-manifest/src/authority.rs:852-925 | under silence every writable account was writable |
| Soundness.SignersSound | crates/grillo-manifest/src/authority.rs:896-959 | under silence every required signature is still required, removed accounts included |
| Soundness.LamportsSound | crates/grillo-manifest/src/authority.rs:961-995 | under silence every lamport move was allowed before |
| Soundness.QuietNewAccount | crates/grillo-manifest/src/authority.rs:852-895 | an added account is silent exactly when it is read-only and no context lists it as a program |
| Soundness.ProgramsSound | crates/grillo-manifest/src/authority.rs:852-895 | under silence every program the new entry point may call was an account before, unconstrained, unchecked or of that kind |
| Soundness.CeilingSound | crates/grillo-manifest/src/authority.rs:758-959 | under silence the variadic ceiling did not rise |
| Soundness.ConstraintsSound | crates/grillo-manifest/src/authority.rs:758-959 | under silence an account's constraints are kept exactly when they are still published |
| Soundness.StructuralContextListsAccounts | crates/grillo-manifest/src/authority.rs:1414-1449 | a context found by structure lists every account of the instruction |
| Soundness.InstructionSound | crates/grillo-manifest/src/authority.rs:758-959 | a silent comparison grants nothing new (accounts, bytes, signers, lamports, programs, ceiling, constraints) exactly when no later account of a name brings a byte |
| Soundness.NotWidenedIsSound | crates/grillo-manifest/src/authority.rs:197-213 | for every new document, a verdict of not-widened means that every entry point existed, that none grants anything new exactly when no later account of a name brings a byte, and that no stored value is newly admitted |
| Verdicts.QuietEntryExact | crates/grillo-manifest/src/authority.rs:758-959 | a comparison does not block exactly when header, listed accounts and removed signers meet what they are asked |
| Verdicts.QuietCells | crates/grillo-manifest/src/authority.rs:1284-1400 | exact-cell rules do not block exactly when survivors have no more cells, none larger and the same selector, and removed columns are free of static bytes |
| Verdicts.NotWidenedExact | crates/grillo-manifest/src/authority.rs:197-213 | the verdict is not-widened exactly when no entry point is added and every one, and the rules on stored values, meet what they are asked; renames and removals never matter |
| SelfComparison.SameInstruction | crates/grillo-manifest/src/authority.rs:758-959 | an entry point compared with itself draws no finding exactly when the first account of a name, the first rule of a segment and the first field of a name stand for all of them |
| SelfComparison.IdenticalIsSilent | crates/grillo-manifest/src/authority.rs:1790-1796 | a whole document compared with itself draws no finding exactly under that condition at every entry point |
| SelfComparison.IdenticalIsNotWidened | crates/grillo-manifest/src/authority.rs:1790-1796 | with unique names, identical manifests are never reported as widened |
| ExactCells.InvocationsKept | crates/grillo-manifest/src/resolve.rs:342-371 | silent rules whose surviving columns keep their geometry let every invocation write only what it could before, for all selectors |
| ExactCells.InvocationsExact | crates/grillo-manifest/src/resolve.rs:342-371 | for arbitrary rules and static bytes, moved, resized, added or removed, no invocation gains a byte exactly when each old column keeps only its picked cell and nothing lies beyond the old static bytes |
| ExactCells.InvocationSound | crates/grillo-manifest/src/authority.rs:1284-1400 | the same exact condition for every strict instruction, layouts changed or not; where fields did not move, silence alone keeps the bytes within the old static ones |
| ExactCells.ColumnKeptExact | crates/grillo-manifest/src/authority.rs:1284-1400 | for one surviving column, however moved or resized: the bytes given up and the old bytes reached lie in the cell the old rule picked |
| ExactCells.MovingIsSilent | crates/grillo-manifest/src/authority.rs:1333-1378 | any change of base and stride draws no finding |
| ExactCells.MovedColumnFreesItsPlace | crates/grillo-manifest/src/authority.rs:1333-1378 | twenty cells moved by twenty bytes: a byte one selection guarded becomes writable by every call |
| ExactCells.ShrunkColumnExact | crates/grillo-manifest/src/authority.rs:1284-1400 | a column shrunk in place keeps authority exactly when it had one cell or did not shrink |
| ExactCells.ShrinkingIsQuiet | crates/grillo-manifest/src/authority.rs:1284-1400 | shrinking in place is silent, and growing is not |
| ExactCells.FewerCellsFreeTheRest | crates/grillo-manifest/src/authority.rs:1284-1400 | twenty cells cut to ten: a byte one selection guarded becomes writable by every call |
| Reversal.RolesReverse | crates/grillo-manifest/src/authority.rs:896-925 | swapping the manifests mirrors the role findings, with multiplicity |
| Reversal.NamesReverse | crates/grillo-manifest/src/authority.rs:961-995 | swapping mirrors the lamport findings |
| Reversal.ContractsReverse | crates/grillo-manifest/src/authority.rs:758-959 | swapping mirrors the lamport-contract and variadic findings |
| Reversal.DataReverse | crates/grillo-manifest/src/authority.rs:1053-1159 | swapping mirrors the data findings |
| Reversal.ContextReverse | crates/grillo-manifest/src/authority.rs:1491-1647 | swapping mirrors every context constraint's findings |
| Reversal.WidenedIsNarrowedBack | crates/grillo-manifest/src/authority.rs:72-84 | a mirrored comparison widens one way exactly when it narrows the other, and asks for review both ways or neither |
| Sha256.BitsBit | crates/grillo-manifest/src/sha256.rs:54-108 | bit k of xor, and, not is the operation on the two bits k |
| Sha256.RotrBit | crates/grillo-manifest/src/sha256.rs:60-86 | bit k of a rotated word is bit (k + n) mod 32 |
| Sha256.ShrBit | crates/grillo-manifest/src/sha256.rs:60-63 | bit k of a shifted word is bit k + n |
| Constants.RoundConstant | crates/grillo-manifest/src/sha256.rs:14-23 | each round constant is the first 32 bits of the fraction of the cube root of its prime |
| Sha256.InitialWord | crates/grillo-manifest/src/sha256.rs:25-27 | each initial hash word is the first 32 bits of the fraction of the square root of its prime |
| Constants.PrimesExact | crates/grillo-manifest/src/sha256.rs:14-27 | the primes used are exactly those up to 311 |
| Constants.PrimesIncrease | crates/grillo-manifest/src/sha256.rs:14-27 | and they are used in increasing order |
| Sha256.ChBit | crates/grillo-manifest/src/sha256.rs:54-108 | bit k of the choice function is the second argument's where the first has a bit, else the third's |
| Sha256.MajBit | crates/grillo-manifest/src/sha256.rs:54-108 | bit k of the majority function is the one two of the three have |
| Sha256.SigmaBits | crates/grillo-manifest/src/sha256.rs:54-108 | bit k of each sigma is the sum of three bits of its argument, at the standard's distances |
| Sha256.BitsPin | crates/grillo-manifest/src/sha256.rs:54-108 | a word is determined by its bits |
| Sha256.Schedule | crates/grillo-manifest/src/sha256.rs:54-70 | the in-place schedule is the recursive one of section 6.2.2 of FIPS 180-4 |
| Sha256.Compress | crates/grillo-manifest/src/sha256.rs:54-108 | 64 rounds over eight rotating variables are the recursive steps, added back to the hash words |
| Sha256.Sha256Of | crates/grillo-manifest/src/sha256.rs:30-52 | the digest of every message is that of the recursive definition |
| Sha256.Pad | crates/grillo-manifest/src/sha256.rs:33-40 | the growing buffer ends as section 5.1.1 pads it |
| Sha256.PaddedLength | crates/grillo-manifest/src/sha256.rs:33-40 | padding always reaches whole 64-byte blocks |
| Sha256.FewestZeros | crates/grillo-manifest/src/sha256.rs:33-40 | no shorter run of zeros does |
| Sha256.PaddedInjective | crates/grillo-manifest/src/sha256.rs:33-40 | different messages pad differently, of any length |
| Sha256.FoldConcat | crates/grillo-manifest/src/sha256.rs:42-44 | after whole blocks, hashing the rest continues from the state reached |
| Commitment.EncodeCanonical | crates/grillo-manifest/src/commitment.rs:41-85 | the nested appends write exactly the encoding of the contract |
| Commitment.EncodeManifest | crates/grillo-manifest/src/commitment.rs:118-126 | domain tag, count, and every instruction's encoding |
| Commitment.InstructionCommitment | crates/grillo-manifest/src/commitment.rs:89-95 | the hash of the instruction's preimage |
| Commitment.CommitmentOf | crates/grillo-manifest/src/commitment.rs:129-131 | the hash of the canonical bytes |
| Commitment.ContractReads | crates/grillo-manifest/src/commitment.rs:41-111 | a decoder reads a contract back in front of any suffix |
| Commitment.CanonicalOfContracts | crates/grillo-manifest/src/commitment.rs:118-126 | program name, version and account roles never matter |
| Commitment.CanonicalBytesPinContracts | crates/grillo-manifest/src/commitment.rs:118-126 | equal canonical bytes exactly for equal lists of contracts |
| Commitment.PreimagePinsContract | crates/grillo-manifest/src/commitment.rs:89-95 | equal instruction preimages exactly for equal contracts |
| Commitment.DomainsApart | crates/grillo-manifest/src/commitment.rs:89-126 | a manifest's bytes and an instruction's preimage differ unless the manifest lists 0x736e692e instructions |
| Commitment.TagsSpelled | crates/grillo-manifest/src/commitment.rs:22-95 | the domain tags are the two texts, character by character |
| Octets.LeBytesAt | crates/grillo-manifest/src/commitment.rs:41-85 | byte k of a number is its k-th digit to base 256 |
| Octets.LeForms | crates/grillo-manifest/src/commitment.rs:41-85 | the 16- and 32-bit forms are the general little-endian one |
| Wire.EncodeData | audit/release-candidate-0-6-2026-10-09/client-check/client.rs:255-267 | the append loops write tag, counts and values, or refuse an overfull argument |
| Wire.DecodeArgs | audit/release-candidate-0-6-2026-10-09/client-check/client.rs:270-323 | the offset loops return the specified arguments or the specified error |
| WireLaws.DecodeInvertsEncode | audit/release-candidate-0-6-2026-10-09/client-check/client.rs:82-123 | for every schema, decoding an encoding returns the arguments |
| WireLaws.EncodeInvertsDecode | audit/release-candidate-0-6-2026-10-09/client-check/client.rs:164-212 | every accepted byte string is the encoding of what it decodes to |
| WireLaws.PrefixesRefused | audit/release-candidate-0-6-2026-10-09/client-check/client.rs:270-323 | every proper prefix is refused as too short |
| WireLaws.ExtensionsRefused | audit/release-candidate-0-6-2026-10-09/client-check/client.rs:270-323 | every proper extension is refused |
| WireLaws.EncodingLength | audit/release-candidate-0-6-2026-10-09/client-check/client.rs:241-267 | an encoding is at most the published length, and that long exactly when every bounded argument is full |
| WireLaws.PublishedLengths | audit/release-candidate-0-6-2026-10-09/client-check/client.rs:70-243 | the three published lengths are those of their schemas |
| WireLaws.AliasesExample | tests/borrowed_slices.rs:213-231 | a message of all four kinds of argument is decoded byte by byte as the repository's own example says |
| Clients.ClientsAgree | audit/release-candidate-0-6-2026-10-09/client-check/instructions.py:51-83 | on arguments the Rust types admit, Rust, TypeScript and Python send the same bytes or refuse alike |
| Clients.BuildersAgreeExactly | audit/release-candidate-0-6-2026-10-09/client-check/instructions.ts:55-83 | on any arguments, TypeScript and Python agree exactly when every number is in range and every string well formed, unless both refuse |
| Clients.NumberAgreesExactly | audit/release-candidate-0-6-2026-10-09/client-check/instructions.py:5-20 | a number of w bytes is sent alike exactly when 0 <= n < 256^w |
| Clients.NonceWraps | audit/release-candidate-0-6-2026-10-09/client-check/instructions.ts:35-36 | a nonce of 65536: TypeScript sends what it sends for zero, Python refuses |
| Clients.LoneHalfReplaced | audit/release-candidate-0-6-2026-10-09/client-check/instructions.ts:60-61 | a note of half a surrogate pair: TypeScript sends what it sends for U+FFFD, Python refuses |
| Strings.StrictIsLossy | audit/release-candidate-0-6-2026-10-09/client-check/instructions.py:42-44 | the strict encoding exists exactly for well-formed strings, and is then the lossy one |
| Strings.WellFormedExact | audit/release-candidate-0-6-2026-10-09/client-check/instructions.py:42-44 | a string is well formed exactly when every high half has a low half behind it and every low half a high one before it |
| Strings.PointReads | audit/release-candidate-0-6-2026-10-09/client-check/instructions.py:42-44 | an encoded code point is read back by a UTF-8 reader in front of anything |
| Strings.CodePointsReads | audit/release-candidate-0-6-2026-10-09/client-check/instructions.ts:60-61 | taking code units apart into code points loses nothing |
| Strings.StrictInjective | audit/release-candidate-0-6-2026-10-09/client-check/instructions.py:42-44 | different well-formed strings have different encodings |
| Clients.FillBuffer | audit/release-candidate-0-6-2026-10-09/client-check/instructions.ts:93-130 | the presized buffer is filled completely and every byte is written exactly once |
| Clients.JoinParts | audit/release-candidate-0-6-2026-10-09/client-check/instructions.py:51-83 | encoding, checking and appending in turn gives the same bytes, or the error of the strict encoding or of a check |
| OnChain.Decoder.Take | src/__macro_support.rs:63-74 | the next bytes, or a refusal that leaves the cursor alone |
| OnChain.Decoder.Finish | src/__macro_support.rs:33-39 | succeeds exactly when every byte was consumed |
| OnChain.Decoder.TakeRemaining | src/__macro_support.rs:42-46 | hands out what is left and leaves nothing |
| OnChain.Decoder.ReadItems | crates/hopper-runtime/src/tail.rs:663-688 | owned elements are read and checked one by one: all of them exactly when all are there and pass |
| OnChain.Decoder.BorrowItems | crates/hopper-runtime/src/bounded_slice.rs:44-67 | borrowed elements are checked once all are there: the same elements or the same refusal |
| OnChain.Decoder.DecodeArg | src/__macro_support.rs:126-326 | one bounded or flat argument with its checks; a refusal leaves the cursor, except behind the bytes of a flat argument that fail their check |
| OnChain.DecodePayload | src/__macro_support.rs:95-326 | every argument in turn, then finish |
| OnChain.OnChainExact | src/__macro_support.rs:236-326 | the program accepts a payload with given arguments exactly when it is their encoding and every element passes its check |
| OnChain.EndsAgree | src/__macro_support.rs:236-326 | the program accepts exactly the payloads that the client decoder accepts and whose elements all pass, with the same arguments |
| OnChain.SubmitExact | tests/borrowed_slices.rs:13-22 | a submission the client decoder accepts is accepted by the program exactly when each order's side is absent or one of the two |
| OnChain.OrderSides | tests/borrowed_slices.rs:109-128 | of all tags and sides: tag 0 with any side, or tag 1 with side 1 or 7 |
| OnChain.MalformedOrderRefused | tests/borrowed_slices.rs:109-128 | one order tagged 9: the client decoder accepts it, the program refuses it |
| TailCodec.EncodeTail | src/lib.rs:693-709 | succeeds exactly when the whole encoding fits, and then writes it and nothing else; otherwise the fields before the first that does not fit are written |
| TailCodec.DecodeTail | src/lib.rs:711-725 | reads every field at a cursor that never leaves the input |
| TailCodec.ComposedLawful | src/lib.rs:690-726 | field codecs that invert themselves in front of any suffix, respect their maximum and stay inside compose into one that does |
| TailCodec.ComposedExact | src/lib.rs:690-726 | field codecs that accept only what they write compose into one that does |
| TailCodec.ComposedTight | src/lib.rs:690-726 | where every field reaches its maximum, so does the tail |
| TailCodec.InLeftLawful | src/lib.rs:690-726 | a lawful codec stays lawful as one side of a sum of field types |
| TailCodec.InRightLawful | src/lib.rs:690-726 | likewise for the other side, so fields of different types compose |
| TailCodec.InLeftExact | src/lib.rs:690-726 | lifting keeps that only encodings are accepted |
| TailCodec.InRightExact | src/lib.rs:690-726 | likewise for the other side |
| TailCodec.MultisigTailLawful | src/lib.rs:668-675 | the macro's own example, a string and a vector of addresses, composes lawfully into at most 356 bytes |
| TailCodec.MultisigTailExact | src/lib.rs:668-675 | the macro's own example accepts nothing but encodings of a label and addresses within their capacities |
| TailCodec.MultisigTailTight | src/lib.rs:668-675 | the 356 bytes of the macro's own example are reached |
| TailCodec.VecLawful | crates/hopper-runtime/src/tail.rs:642-688 | a bounded vector of a lawful element codec is lawful |
| TailCodec.VecExact | crates/hopper-runtime/src/tail.rs:663-688 | whatever a bounded vector decodes is within its capacity and encodes to the bytes read |
| TailCodec.VecTight | crates/hopper-runtime/src/tail.rs:642-647 | a full vector of longest elements reaches the maximum |
| TailCodec.StringLawful | crates/hopper-runtime/src/tail.rs:424-452 | the bounded string codec is lawful |
| TailCodec.StringExact | crates/hopper-runtime/src/tail.rs:424-452 | whatever a bounded string decodes is within its capacity and encodes to the bytes read |
| TailCodec.RawLawful | crates/hopper-runtime/src/tail.rs:194-262 | fixed-width codecs are lawful |
| TailCodec.RawExact | crates/hopper-runtime/src/tail.rs:194-262 | fixed-width codecs accept only their width |
| TailCodec.OptionLawful | crates/hopper-runtime/src/tail.rs:271-301 | an option of a lawful codec is lawful |
| TailCodec.OptionExact | crates/hopper-runtime/src/tail.rs:271-301 | only the tags zero and one are accepted |
| TailCodec.OptionTight | crates/hopper-runtime/src/tail.rs:271-301 | a present value of greatest length reaches the maximum |
| TailCodec.TailBytesAreWireBytes | crates/hopper-runtime/src/tail.rs:642-662 | tail vectors and strings have the bytes the clients write |
| Masking.MaskNonCode | scripts/check-unsafe-safety-comments.py:180-282 | the five-state loop computes the masked text of the token-by-token definition, or its fault |
| MaskingLaws.CharLiteralExact | scripts/check-unsafe-safety-comments.py:253-256 | the match length is that of the one prefix that is a character literal |
| MaskingLaws.HexDigits | scripts/check-unsafe-safety-comments.py:253-256 | the digits of an escape are the sixteen hexadecimal ones in either case, and the bar between braces |
| MaskingLaws.RawEndFirst | scripts/check-unsafe-safety-comments.py:230-241 | a raw string ends at the first quote followed by its hashes |
| MaskingLaws.RawOpeningExact | scripts/check-unsafe-safety-comments.py:269-275 | hashes, at most 255, and a quote open a raw string, and nothing else does |
| MaskingLaws.RawTokenExact | scripts/check-unsafe-safety-comments.py:269-275 | a text opens a raw string of n hashes exactly when it starts with r or br, the hashes and a quote |
| MaskingLaws.RawStringMasked | scripts/check-unsafe-safety-comments.py:230-275 | a raw string, whatever its body, is blanked up to and including its first closing mark |
| MaskingLaws.StringEndFirst | scripts/check-unsafe-safety-comments.py:212-229 | a string ends at the first quote with an even number of backslashes before it |
| MaskingLaws.StringMasked | scripts/check-unsafe-safety-comments.py:212-229 | a string is blanked as a whole |
| MaskingLaws.LineCommentMasked | scripts/check-unsafe-safety-comments.py:180-199 | a line comment is blanked up to the newline |
| MaskingLaws.BlockEndExact | scripts/check-unsafe-safety-comments.py:192-211 | a block comment ends exactly where a properly nested one does |
| MaskingLaws.CommentMasked | scripts/check-unsafe-safety-comments.py:192-211 | a block comment is blanked with everything nested in it |
| MaskingLaws.CharMasked | scripts/check-unsafe-safety-comments.py:250-262 | a character literal is blanked as a whole |
| MaskingLaws.PlainExact | scripts/check-unsafe-safety-comments.py:242-282 | a character is kept exactly where no comment and no literal starts |
| MaskingLaws.MaskedOnlyBlanks | scripts/check-unsafe-safety-comments.py:180-282 | length and every newline are kept; characters change only to spaces |
| MaskingLaws.MaskedIsInert | scripts/check-unsafe-safety-comments.py:180-282 | no double quote, line-comment or block-comment opening is left |
| MaskingLaws.MaskedIdempotent | scripts/check-unsafe-safety-comments.py:180-282 | masking accepts its own output and does not change it |
| Reach.ReachedFrom | scripts/audit-map.py:372-382 | ends defined on exactly the functions reachable from test-called ones, each mapped to the first listed of its nearest ones |
| Reach.RanksCoverRuns | scripts/audit-map.py:374-382 | when every entry is expanded, no run of calls is shorter than the rank recorded |
| Reach.RunsAgree | scripts/audit-map.py:369-371 | two searches over the same calls agree, whatever order callees are visited in |
| Propagation.Propagate | scripts/api-lock.py:807-823 | stops, with the least closed set of crates broken, other levels kept and every reason recorded true |
| Propagation.OrderIndependent | scripts/api-lock.py:807-823 | any order of crates and dependencies gives the same levels |
| Propagation.BrokenByChain | scripts/api-lock.py:807-823 | a crate ends up broken exactly when exposures lead from it to one broken at the start |
| Propagation.LevelExact | scripts/api-lock.py:807-823 | the level of every crate from the levels at the start: breaking, review and new stay, and another becomes breaking exactly where a chain leads to a crate that is breaking or under review |
| Epoch.EpochOf | scripts/test-function-lab-devnet.py:125-131 | the doubling loop computes the closed form |
| Epoch.WarmupExact | scripts/function-lab-cases.py:73-74 | `(slot + 32).bit_length() - 6` names the one warmup epoch a slot lies in |
| Epoch.PartitionsExactly | scripts/test-function-lab-devnet.py:125-134 | epoch and first slot invert each other for all slots exactly when epochs have slots and the first regular slot lies in its warmup epoch or right after it |
| Epoch.ExpectedIsCapped | scripts/function-lab-cases.py:73-80 | the saturating formulas are the exact ones capped at the largest 64-bit value, with or without slots per epoch |
| Epoch.ExpectedPartition | scripts/function-lab-cases.py:73-80 | below the cap the saturating formulas still invert each other |

## Left out

- The wording of findings: a finding keeps the values its sentence shows, and the sentence made of them is a parameter of the report; `Reversal` leaves out what a bounded account's sentence shows.
- JSON parsing, the version check of manifests and the canonical JSON text: documents and their canonical texts are parameters.
- Soundness.NotWidenedIsSound: assumes of the published document unique account names and lamport positions in range where an entry point is dispatched to, and that equal rule texts are equal rules whose bounds exclude no admitted value; constraints are covered up to `StillPublished` and bytes up to `NamesakesKept`, the necessity of which is proved.
- ExactCells.InvocationsKept: a one-way reading of silence under unchanged geometry; the exact condition without it is `ExactCells.InvocationsExact`.
- An invocation the old rules refused for a selector past a removed column's last cell is compared byte by byte, not as a refusal.
- Exact-cell bytes are not in `Rights.MayWrite`: a resolved invocation writes a subset of the static ranges it states.
- Reversal covers roles, lamports, contracts, data and context constraints; added and removed instructions and accounts, strictness and exact cells are not mirror images in the source.
- UTF-8 validity is a predicate on bytes, given as a parameter.
- Numbers given to the TypeScript client are integers; a fraction, which it truncates, is not modelled. Signed and 64-bit setters wrap alike and are not modelled separately.
- Element checks are predicates on the element's bytes, given as parameters (only the one of submitted orders is spelled out); signed and wire integers, addresses and flags are flat arguments with a check, and a rest-of-payload argument is only the cursor's `TakeRemaining`.
- Strings of the Python client that hold both halves of a pair as separate characters: they have no counterpart in TypeScript.
- Whether an account that `init` or `realloc` names can be created or resized at all is the runtime's business; the model says only whether it must exist.
- TailCodec.EncodeTail: after a failed encoding, says nothing of the bytes behind the fields that were written.
- Overflow of `usize` cursors and of 64-bit envelope ends: unreachable at the 16- and 32-bit widths of the formats.
- Collision resistance of SHA-256: encodings are proved injective, digests are not.
- How `defined`, `called_by_tests`, `exposes` and the initial levels are extracted from source text by regular expressions.
- Lifecycle names are the canonical ones the schema writes; any other name than `init` and `init_if_needed` is read as use of an existing account.
- Devnet drivers, RPC, attestation and evidence scripts, rendering, and the Go, C and Kotlin clients.
