/** Value rules on layout fields: what a stored value must satisfy for its
    account to bind, folded per field and compared across an upgrade. */
module FieldRules {
  import opened Orders
  import opened Manifest
  import opened Findings

  datatype FieldKey = FieldKey(layout: string, field: string)

  datatype Entry = Entry(key: FieldKey, rule: Rule)

  /** Everything the rules of one field say together. */
  datatype RuleSet = RuleSet(texts: seq<string>, min: Option<int>, max: Option<int>, exact: bool)

  const NO_RULES := RuleSet([], None, None, true)

  // -------------------------------------------------------------------------
  // Folding the rules of each field.
  // -------------------------------------------------------------------------

  function Tighten(current: Option<int>, bound: Bound, lower: bool): Option<int> {
    match (current, bound)
    case (None, At(v)) => Some(v)
    case (Some(c), At(v)) => Some(if (c < v) == lower then v else c)
    case _ => current
  }

  function Absorb(s: RuleSet, rule: Rule): RuleSet {
    RuleSet(
      s.texts + [rule.text],
      Tighten(s.min, rule.min, true),
      Tighten(s.max, rule.max, false),
      s.exact && !rule.min.Unreadable? && !rule.max.Unreadable? && rule.exact)
  }

  function Fold(rules: seq<Rule>): RuleSet {
    if rules == [] then NO_RULES else Absorb(Fold(rules[..|rules| - 1]), rules[|rules| - 1])
  }

  function Summary(rules: seq<Rule>): RuleSet {
    SortedSet(Fold(rules))
  }

  function LayoutEntries(l: LayoutRules): seq<Entry> {
    seq(|l.rules|, k requires 0 <= k < |l.rules| => Entry(FieldKey(l.layout, l.rules[k].field), l.rules[k]))
  }

  function EntriesOf(): LayoutRules -> seq<Entry> { (l: LayoutRules) => LayoutEntries(l) }

  /** Every rule of the document in order, with the field it is about. */
  function Entries(doc: Doc): seq<Entry> {
    FlatMap(doc.fieldRules, EntriesOf())
  }

  function RulesOn(entries: seq<Entry>, key: FieldKey): seq<Rule> {
    if entries == [] then []
    else
      var last := entries[|entries| - 1];
      RulesOn(entries[..|entries| - 1], key) + if last.key == key then [last.rule] else []
  }

  function KeySeq(entries: seq<Entry>): seq<FieldKey> {
    seq(|entries|, k requires 0 <= k < |entries| => entries[k].key)
  }

  /** The map holds, for every field that has a rule, the fold of its rules. */
  ghost predicate Holds(sets: map<FieldKey, RuleSet>, entries: seq<Entry>) {
    && (forall key :: key in sets <==> key in KeySeq(entries))
    && (forall key :: key in sets ==> sets[key] == Fold(RulesOn(entries, key)))
  }

  lemma RulesOnNext(entries: seq<Entry>, e: Entry, key: FieldKey)
    ensures RulesOn(entries + [e], key) == RulesOn(entries, key) + if e.key == key then [e.rule] else []
  {
    assert (entries + [e])[..|entries|] == entries;
  }

  lemma FoldNext(rules: seq<Rule>, rule: Rule)
    ensures Fold(rules + [rule]) == Absorb(Fold(rules), rule)
  {
    assert (rules + [rule])[..|rules|] == rules;
  }

  lemma KeySeqNext(entries: seq<Entry>, e: Entry, key: FieldKey)
    ensures key in KeySeq(entries + [e]) <==> key in KeySeq(entries) || key == e.key
  {
    assert KeySeq(entries + [e]) == KeySeq(entries) + [e.key];
  }

  lemma HoldsNext(sets: map<FieldKey, RuleSet>, entries: seq<Entry>, e: Entry, grown: map<FieldKey, RuleSet>)
    requires Holds(sets, entries)
    requires grown == sets[e.key := Absorb(if e.key in sets then sets[e.key] else NO_RULES, e.rule)]
    ensures Holds(grown, entries + [e])
  {
    forall key ensures key in grown <==> key in KeySeq(entries + [e]) { KeySeqNext(entries, e, key); }
    if e.key !in sets { NoRulesOn(entries, e.key); }
    forall key | key in grown ensures grown[key] == Fold(RulesOn(entries + [e], key)) {
      RulesOnNext(entries, e, key);
      FoldNext(RulesOn(entries, key), e.rule);
      if key != e.key { assert RulesOn(entries, key) + [] == RulesOn(entries, key); }
    }
  }

  lemma {:induction false} NoRulesOn(entries: seq<Entry>, key: FieldKey)
    requires key !in KeySeq(entries)
    ensures RulesOn(entries, key) == []
  {
    if entries != [] {
      var init := entries[..|entries| - 1];
      assert KeySeq(entries)[|entries| - 1] == entries[|entries| - 1].key;
      assert KeySeq(entries) == KeySeq(init) + [entries[|entries| - 1].key];
      NoRulesOn(init, key);
    }
  }

  /** The map the code built from these entries. */
  ghost predicate Built(sets: map<FieldKey, RuleSet>, entries: seq<Entry>) {
    && (forall key :: key in sets <==> key in KeySeq(entries))
    && (forall key :: key in sets ==> sets[key] == Summary(RulesOn(entries, key)))
  }

  lemma LayoutEntriesNext(l: LayoutRules, before: seq<Entry>, j: nat)
    requires j < |l.rules|
    ensures before + LayoutEntries(l)[..j + 1]
         == before + LayoutEntries(l)[..j] + [Entry(FieldKey(l.layout, l.rules[j].field), l.rules[j])]
  {}

  method AbsorbLayout(layout: LayoutRules, before: map<FieldKey, RuleSet>, ghost entries: seq<Entry>)
    returns (sets: map<FieldKey, RuleSet>)
    requires Holds(before, entries)
    ensures Holds(sets, entries + LayoutEntries(layout))
  {
    sets := before;
    assert entries + LayoutEntries(layout)[..0] == entries;
    for j := 0 to |layout.rules|
      invariant Holds(sets, entries + LayoutEntries(layout)[..j])
    {
      var rule := layout.rules[j];
      var key := FieldKey(layout.layout, rule.field);
      var s := if key in sets then sets[key] else NO_RULES;
      HoldsNext(sets, entries + LayoutEntries(layout)[..j], Entry(key, rule), sets[key := Absorb(s, rule)]);
      LayoutEntriesNext(layout, entries, j);
      sets := sets[key := Absorb(s, rule)];
    }
    assert LayoutEntries(layout)[..|layout.rules|] == LayoutEntries(layout);
  }

  method FieldRuleSets(doc: Doc) returns (sets: map<FieldKey, RuleSet>)
    ensures Built(sets, Entries(doc))
  {
    sets := map[];
    for i := 0 to |doc.fieldRules|
      invariant Holds(sets, FlatMap(doc.fieldRules[..i], EntriesOf()))
    {
      sets := AbsorbLayout(doc.fieldRules[i], sets, FlatMap(doc.fieldRules[..i], EntriesOf()));
      FlatMapNext(doc.fieldRules, EntriesOf(), i);
    }
    assert doc.fieldRules[..|doc.fieldRules|] == doc.fieldRules;
    sets := SortTexts(sets, Entries(doc));
  }

  function SortedSet(s: RuleSet): RuleSet {
    s.(texts := SortDedup(s.texts, StringLe()))
  }

  method SortTexts(sets: map<FieldKey, RuleSet>, ghost entries: seq<Entry>) returns (sorted: map<FieldKey, RuleSet>)
    requires Holds(sets, entries)
    ensures Built(sorted, entries)
  {
    sorted := MapValues(sets, Sorter());
    forall key | key in sets ensures Sorter()(sets[key]) == Summary(RulesOn(entries, key)) {}
  }

  function Sorter(): RuleSet -> RuleSet { (s: RuleSet) => SortedSet(s) }

  function MapValues<K, V>(m: map<K, V>, f: V -> V): (r: map<K, V>)
    ensures r.Keys == m.Keys && forall k :: k in m ==> r[k] == f(m[k])
  {
    map k | k in m :: f(m[k])
  }

  // -------------------------------------------------------------------------
  // Comparing the sets of one field.
  // -------------------------------------------------------------------------

  function FieldNote(key: FieldKey, impact: Impact, code: Code, detail: Detail): seq<Finding> {
    [Finding(impact, "layout " + key.layout, Some(key.field), code, detail)]
  }

  predicate LowerWidened(was: RuleSet, now: RuleSet) {
    was.min.Some? && (now.min.Some? ==> now.min.value < was.min.value)
  }

  predicate UpperWidened(was: RuleSet, now: RuleSet) {
    was.max.Some? && (now.max.Some? ==> now.max.value > was.max.value)
  }

  function SetFindings(key: FieldKey, was: RuleSet, now: RuleSet): seq<Finding> {
    var change := Bounds([was.texts, now.texts], [was.min, was.max, now.min, now.max]);
    if was.texts == now.texts then []
    else if LowerWidened(was, now) || UpperWidened(was, now) then
      FieldNote(key, Widened, FieldRuleWidened, change)
    else if was.exact && now.exact then
      if was.min == now.min && was.max == now.max
      then FieldNote(key, Info, FieldRuleRespelled, change)
      else FieldNote(key, Narrowed, FieldRuleTightened, change)
    else if forall t :: t in was.texts ==> t in now.texts then
      FieldNote(key, Narrowed, FieldRuleTightened, change)
    else FieldNote(key, Review, FieldRuleRewritten, change)
  }

  function OldField(wasEntries: seq<Entry>, nowEntries: seq<Entry>): FieldKey -> seq<Finding> {
    (key: FieldKey) =>
      var was := Summary(RulesOn(wasEntries, key));
      if key in KeySeq(nowEntries)
      then SetFindings(key, was, Summary(RulesOn(nowEntries, key)))
      else FieldNote(key, Widened, FieldRuleRemoved, Bounds([was.texts], []))
  }

  function AddedField(wasEntries: seq<Entry>, nowEntries: seq<Entry>): FieldKey -> seq<Finding> {
    (key: FieldKey) =>
      if key in KeySeq(wasEntries) then []
      else FieldNote(key, Narrowed, FieldRuleAdded, Bounds([Summary(RulesOn(nowEntries, key)).texts], []))
  }

  function KeyLe(): (FieldKey, FieldKey) -> bool {
    (a: FieldKey, b: FieldKey) => LexLe(StringLe(), [a.layout, a.field], [b.layout, b.field])
  }

  lemma KeyLeTotal()
    ensures TotalOrder(KeyLe())
  {
    StringLeTotal();
    hide LexLe, StringLe;
    var le, words := KeyLe(), (k: FieldKey) => [k.layout, k.field];
    forall a, b ensures le(a, b) || le(b, a)
      ensures le(a, b) && le(b, a) ==> a == b
    {
      LexTotal(StringLe(), words(a), words(b));
      assert words(a)[0] == a.layout && words(a)[1] == a.field;
      assert words(b)[0] == b.layout && words(b)[1] == b.field;
    }
    forall a, b, c | le(a, b) && le(b, c) ensures le(a, c) {
      LexTransitive(StringLe(), words(a), words(b), words(c));
    }
  }

  /** The keys of the map in its order. */
  function OrderedKeys(entries: seq<Entry>): seq<FieldKey> {
    SortDedup(KeySeq(entries), KeyLe())
  }

  function RuleFindings(wasDoc: Doc, nowDoc: Doc): seq<Finding> {
    var was, now := Entries(wasDoc), Entries(nowDoc);
    FlatMap(OrderedKeys(was), OldField(was, now)) + FlatMap(OrderedKeys(now), AddedField(was, now))
  }

  lemma OrderedKeysMember(entries: seq<Entry>, key: FieldKey)
    ensures key in OrderedKeys(entries) <==> key in KeySeq(entries)
  {}

  /** Map order: by layout, then by field, every field that has a rule once. */
  lemma OrderedKeysIncrease(entries: seq<Entry>)
    ensures Increasing(OrderedKeys(entries), KeyLe())
    ensures Elements(OrderedKeys(entries)) == Elements(KeySeq(entries))
  {
    KeyLeTotal();
    hide KeyLe;
  }

  method DiffFieldRules(wasDoc: Doc, nowDoc: Doc, findings: FindingList)
    modifies findings
    ensures findings.items == old(findings.items) + RuleFindings(wasDoc, nowDoc)
  {
    ghost var start := findings.items;
    var was, now := Entries(wasDoc), Entries(nowDoc);
    var wasSets := FieldRuleSets(wasDoc);
    var nowSets := FieldRuleSets(nowDoc);
    var wasKeys, nowKeys := OrderedKeys(was), OrderedKeys(now);
    forall key | key in wasKeys ensures key in wasSets { OrderedKeysMember(was, key); }
    forall key | key in nowKeys ensures key in nowSets { OrderedKeysMember(now, key); }
    DiffOldFields(was, now, wasKeys, wasSets, nowSets, findings);
    DiffAddedFields(was, now, nowKeys, wasSets, nowSets, findings);
    Assoc(start, FlatMap(wasKeys, OldField(was, now)), FlatMap(nowKeys, AddedField(was, now)));
  }

  method DiffOldFields(ghost was: seq<Entry>, ghost now: seq<Entry>, keys: seq<FieldKey>,
                       wasSets: map<FieldKey, RuleSet>, nowSets: map<FieldKey, RuleSet>, findings: FindingList)
    requires Built(wasSets, was) && Built(nowSets, now) && forall key :: key in keys ==> key in wasSets
    modifies findings
    ensures findings.items == old(findings.items) + FlatMap(keys, OldField(was, now))
  {
    ghost var start := findings.items;
    ghost var push := OldField(was, now);
    for k := 0 to |keys|
      invariant findings.items == start + FlatMap(keys[..k], push)
    {
      hide FlatMap, Built, OldField;
      assert keys[k] in keys;
      FlatMapNext(keys, push, k);
      Assoc(start, FlatMap(keys[..k], push), push(keys[k]));
      DiffOldField(was, now, keys[k], wasSets, nowSets, findings);
    }
    assert keys[..|keys|] == keys;
  }

  method DiffOldField(ghost was: seq<Entry>, ghost now: seq<Entry>, key: FieldKey,
                      wasSets: map<FieldKey, RuleSet>, nowSets: map<FieldKey, RuleSet>, findings: FindingList)
    requires Built(wasSets, was) && Built(nowSets, now) && key in wasSets
    modifies findings
    ensures findings.items == old(findings.items) + OldField(was, now)(key)
  {
    hide Summary, RulesOn, KeySeq, SetFindings;
    if key !in nowSets {
      findings.Push(Finding(Widened, "layout " + key.layout, Some(key.field), FieldRuleRemoved,
                            Bounds([wasSets[key].texts], [])));
    } else {
      DiffRuleSet(key, wasSets[key], nowSets[key], findings);
    }
  }

  method DiffRuleSet(key: FieldKey, was: RuleSet, now: RuleSet, findings: FindingList)
    modifies findings
    ensures findings.items == old(findings.items) + SetFindings(key, was, now)
  {
    if was.texts == now.texts { return; }
    var change := Bounds([was.texts, now.texts], [was.min, was.max, now.min, now.max]);
    var impact, code;
    if LowerWidened(was, now) || UpperWidened(was, now) {
      impact, code := Widened, FieldRuleWidened;
    } else if was.exact && now.exact {
      if was.min == now.min && was.max == now.max {
        impact, code := Info, FieldRuleRespelled;
      } else {
        impact, code := Narrowed, FieldRuleTightened;
      }
    } else if forall t :: t in was.texts ==> t in now.texts {
      impact, code := Narrowed, FieldRuleTightened;
    } else {
      impact, code := Review, FieldRuleRewritten;
    }
    findings.Push(Finding(impact, "layout " + key.layout, Some(key.field), code, change));
  }

  method DiffAddedFields(ghost was: seq<Entry>, ghost now: seq<Entry>, keys: seq<FieldKey>,
                         wasSets: map<FieldKey, RuleSet>, nowSets: map<FieldKey, RuleSet>, findings: FindingList)
    requires Built(wasSets, was) && Built(nowSets, now) && forall key :: key in keys ==> key in nowSets
    modifies findings
    ensures findings.items == old(findings.items) + FlatMap(keys, AddedField(was, now))
  {
    ghost var start := findings.items;
    ghost var push := AddedField(was, now);
    for k := 0 to |keys|
      invariant findings.items == start + FlatMap(keys[..k], push)
    {
      hide FlatMap, Built, AddedField;
      assert keys[k] in keys;
      FlatMapNext(keys, push, k);
      Assoc(start, FlatMap(keys[..k], push), push(keys[k]));
      DiffAddedField(was, now, keys[k], wasSets, nowSets, findings);
    }
    assert keys[..|keys|] == keys;
  }

  method DiffAddedField(ghost was: seq<Entry>, ghost now: seq<Entry>, key: FieldKey,
                        wasSets: map<FieldKey, RuleSet>, nowSets: map<FieldKey, RuleSet>, findings: FindingList)
    requires Built(wasSets, was) && Built(nowSets, now) && key in nowSets
    modifies findings
    ensures findings.items == old(findings.items) + AddedField(was, now)(key)
  {
    hide Summary, RulesOn, KeySeq;
    if key !in wasSets {
      findings.Push(Finding(Narrowed, "layout " + key.layout, Some(key.field), FieldRuleAdded,
                            Bounds([nowSets[key].texts], [])));
    }
  }

  // -------------------------------------------------------------------------
  // Meaning: the values a field's rules admit.
  // -------------------------------------------------------------------------

  /** Which values satisfy a rule, by its text: equal texts are equal rules. */
  type Meaning = (string, int) -> bool

  ghost predicate Meets(v: int, min: Option<int>, max: Option<int>) {
    (min.Some? ==> min.value <= v) && (max.Some? ==> v <= max.value)
  }

  ghost predicate MeetsRule(v: int, rule: Rule) {
    (rule.min.At? ==> rule.min.value <= v) && (rule.max.At? ==> v <= rule.max.value)
  }

  /** The published bounds never exclude an admitted value, and an exact rule
      with readable bounds is its bounds. */
  ghost predicate HonestRule(admits: Meaning, rule: Rule) {
    && (forall v :: admits(rule.text, v) ==> MeetsRule(v, rule))
    && (rule.exact && !rule.min.Unreadable? && !rule.max.Unreadable? ==>
         forall v :: MeetsRule(v, rule) ==> admits(rule.text, v))
  }

  ghost predicate Honest(admits: Meaning, entries: seq<Entry>) {
    forall e :: e in entries ==> HonestRule(admits, e.rule)
  }

  /** A value must satisfy every rule of its field. */
  ghost predicate AllAdmit(admits: Meaning, rules: seq<Rule>, v: int) {
    forall r :: r in rules ==> admits(r.text, v)
  }

  lemma {:induction false} RulesOnMember(entries: seq<Entry>, key: FieldKey, r: Rule)
    ensures r in RulesOn(entries, key) <==> exists e :: e in entries && e.key == key && e.rule == r
  {
    if entries != [] {
      var init, last := entries[..|entries| - 1], entries[|entries| - 1];
      RulesOnMember(init, key, r);
      assert forall e :: e in entries <==> e in init || e == last by { assert entries == init + [last]; }
    }
  }

  lemma AbsorbMeets(s: RuleSet, rule: Rule, v: int)
    ensures var t := Absorb(s, rule); Meets(v, t.min, t.max) <==> Meets(v, s.min, s.max) && MeetsRule(v, rule)
  {
    match (s.min, rule.min) { case (Some(_), At(_)) => case _ => }
    match (s.max, rule.max) { case (Some(_), At(_)) => case _ => }
  }

  /** The folded bounds are met exactly by the values that meet the bounds of every rule. */
  lemma {:induction false} FoldMeets(rules: seq<Rule>, v: int)
    ensures Meets(v, Fold(rules).min, Fold(rules).max) <==> forall r :: r in rules ==> MeetsRule(v, r)
  {
    if rules != [] {
      var init, last := rules[..|rules| - 1], rules[|rules| - 1];
      FoldMeets(init, v);
      AbsorbMeets(Fold(init), last, v);
      assert forall r :: r in rules <==> r in init || r == last by { assert rules == init + [last]; }
    }
  }

  lemma {:induction false} FoldExact(rules: seq<Rule>)
    ensures Fold(rules).exact
       <==> forall r :: r in rules ==> r.exact && !r.min.Unreadable? && !r.max.Unreadable?
  {
    if rules != [] {
      var init, last := rules[..|rules| - 1], rules[|rules| - 1];
      FoldExact(init);
      assert forall r :: r in rules <==> r in init || r == last by { assert rules == init + [last]; }
    }
  }

  lemma {:induction false} FoldTexts(rules: seq<Rule>, t: string)
    ensures t in Fold(rules).texts <==> exists r :: r in rules && r.text == t
  {
    if rules != [] {
      var init, last := rules[..|rules| - 1], rules[|rules| - 1];
      FoldTexts(init, t);
      assert forall r :: r in rules <==> r in init || r == last by { assert rules == init + [last]; }
    }
  }

  /** The bounds of an exact set admit exactly what all of its rules admit. */
  lemma ExactSetIsItsBounds(admits: Meaning, rules: seq<Rule>, v: int)
    requires forall r :: r in rules ==> HonestRule(admits, r)
    ensures AllAdmit(admits, rules, v) ==> Meets(v, Fold(rules).min, Fold(rules).max)
    ensures Fold(rules).exact ==>
      (AllAdmit(admits, rules, v) <==> Meets(v, Fold(rules).min, Fold(rules).max))
  {
    FoldMeets(rules, v);
    FoldExact(rules);
  }

  /** Where every old text is kept, every new value is an old value. */
  lemma TextsKept(admits: Meaning, was: seq<Rule>, now: seq<Rule>, v: int)
    requires forall t :: t in Fold(was).texts ==> t in Fold(now).texts
    requires AllAdmit(admits, now, v)
    ensures AllAdmit(admits, was, v)
  {
    forall r | r in was ensures admits(r.text, v) {
      FoldTexts(was, r.text);
      FoldTexts(now, r.text);
    }
  }

  lemma SummaryTexts(rules: seq<Rule>, t: string)
    ensures t in Summary(rules).texts <==> t in Fold(rules).texts
  {
    assert Summary(rules).texts == SortDedup(Fold(rules).texts, StringLe());
  }

  /** What not blocking means for two rule sets. */
  lemma SetQuiet(key: FieldKey, was: RuleSet, now: RuleSet)
    ensures Quiet(SetFindings(key, was, now))
       <==> || was.texts == now.texts
            || (!LowerWidened(was, now) && !UpperWidened(was, now)
                && ((was.exact && now.exact) || forall t :: t in was.texts ==> t in now.texts))
  {
    var fs := SetFindings(key, was, now);
    assert fs == [] || fs == [fs[0]];
    assert fs != [] ==> fs[0] in fs;
  }

  /** One field: without a blocking finding the new rules admit only what the old admitted. */
  lemma SetQuietSound(admits: Meaning, key: FieldKey, was: seq<Rule>, now: seq<Rule>, v: int)
    requires forall r :: r in was ==> HonestRule(admits, r)
    requires forall r :: r in now ==> HonestRule(admits, r)
    requires Quiet(SetFindings(key, Summary(was), Summary(now)))
    requires AllAdmit(admits, now, v)
    ensures AllAdmit(admits, was, v)
  {
    var a, b := Summary(was), Summary(now);
    SetQuiet(key, a, b);
    if a.texts == b.texts || forall t :: t in a.texts ==> t in b.texts {
      forall t | t in Fold(was).texts ensures t in Fold(now).texts {
        SummaryTexts(was, t);
        SummaryTexts(now, t);
      }
      TextsKept(admits, was, now, v);
    } else {
      ExactSetIsItsBounds(admits, now, v);
      ExactSetIsItsBounds(admits, was, v);
    }
  }

  /** Value rules, over whole documents: without a blocking finding every field
      that has rules admits, in the new manifest, only values the old one admitted. */
  lemma RulesQuietSound(admits: Meaning, wasDoc: Doc, nowDoc: Doc, key: FieldKey, v: int)
    requires Honest(admits, Entries(wasDoc)) && Honest(admits, Entries(nowDoc))
    requires Quiet(RuleFindings(wasDoc, nowDoc))
    requires AllAdmit(admits, RulesOn(Entries(nowDoc), key), v)
    ensures AllAdmit(admits, RulesOn(Entries(wasDoc), key), v)
  {
    var was, now := Entries(wasDoc), Entries(nowDoc);
    var push := OldField(was, now);
    if key !in KeySeq(was) {
      NoRulesOn(was, key);
    } else {
      QuietConcat(FlatMap(OrderedKeys(was), push), FlatMap(OrderedKeys(now), AddedField(was, now)));
      FlatMapQuiet(OrderedKeys(was), push);
      assert key in OrderedKeys(was);
      assert Quiet(push(key));
      assert push(key) != [] ==> push(key)[0] in push(key);
      if key in KeySeq(now) {
        forall r | r in RulesOn(was, key) ensures HonestRule(admits, r) { RulesOnMember(was, key, r); }
        forall r | r in RulesOn(now, key) ensures HonestRule(admits, r) { RulesOnMember(now, key, r); }
        SetQuietSound(admits, key, RulesOn(was, key), RulesOn(now, key), v);
      }
    }
  }

  /** Between exact sets the classifier raises no false alarm and misses nothing:
      it blocks exactly when some value is newly admitted, as long as the texts
      differ and the new rules admit anything at all. */
  lemma ExactSetsDecided(admits: Meaning, key: FieldKey, was: seq<Rule>, now: seq<Rule>, some: int)
    requires forall r :: r in was ==> HonestRule(admits, r)
    requires forall r :: r in now ==> HonestRule(admits, r)
    requires Fold(was).exact && Fold(now).exact
    requires AllAdmit(admits, now, some)
    ensures Quiet(SetFindings(key, Summary(was), Summary(now)))
       <==> forall v :: AllAdmit(admits, now, v) ==> AllAdmit(admits, was, v)
  {
    var a, b := Fold(was), Fold(now);
    if Quiet(SetFindings(key, Summary(was), Summary(now))) {
      forall v | AllAdmit(admits, now, v) ensures AllAdmit(admits, was, v) {
        SetQuietSound(admits, key, was, now, v);
      }
    } else {
      SetQuiet(key, Summary(was), Summary(now));
      var v;
      if LowerWidened(a, b) {
        v := if b.min.Some? then b.min.value else if a.min.value <= some then a.min.value - 1 else some;
      } else {
        v := if b.max.Some? then b.max.value else if some <= a.max.value then a.max.value + 1 else some;
      }
      ExactSetIsItsBounds(admits, now, some);
      ExactSetIsItsBounds(admits, now, v);
      ExactSetIsItsBounds(admits, was, v);
      assert AllAdmit(admits, now, v) && !AllAdmit(admits, was, v);
    }
  }
}
