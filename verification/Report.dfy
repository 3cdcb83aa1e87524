/** The report: findings in one canonical order, the verdict over them, and
    when a reviewed report covers a new one. */
module Report {
  import opened Orders
  import opened Manifest
  import opened Findings
  import opened FindingOrders
  import opened Octets
  import opened Program
  import Sha256

  const SCHEMA := "grillo.authority-diff.v1"

  datatype Verdict = NotWidened | VerdictWidened | VerdictReview

  datatype AuthorityReport = AuthorityReport(
    schema: string, oldProgram: string, newProgram: string, oldDigest: string, newDigest: string,
    findings: seq<AuthorityFinding>)

  datatype ApprovalError =
    | SchemaError(schema: string)
    | DigestMismatch(side: string, approved: string, actual: string)
    | Unapproved(findings: seq<AuthorityFinding>)

  function HexDigit(n: nat): char
    requires n < 16
  {
    "0123456789abcdef"[n]
  }

  /** Decimal digits, then letters from `a` on. */
  lemma HexDigitIs(n: nat)
    requires n < 16
    ensures HexDigit(n) as int == if n < 10 then '0' as int + n else 'a' as int + (n - 10)
  {
    if n < 8 { match n { case 0 => case 1 => case 2 => case 3 => case 4 => case 5 => case 6 => case 7 => } }
    else { match n { case 8 => case 9 => case 10 => case 11 => case 12 => case 13 => case 14 => case 15 => } }
  }

  /** Two lower-case digits a byte. */
  function Hex(bytes: seq<Byte>): string {
    if bytes == [] then "" else [HexDigit(bytes[0] / 16), HexDigit(bytes[0] % 16)] + Hex(bytes[1..])
  }

  /** The digest of a document: the hash of its canonical text. */
  function DigestOf(text: seq<Byte>): string { Hex(Sha256.Sha(text)) }

  function Label(doc: Doc): string { doc.name + " v" + doc.version }

  /** The findings as the report lists them: rendered, sorted, without repeats. */
  function Listed(say: Finding -> string, fs: seq<Finding>): seq<AuthorityFinding> {
    SortDedup(ReportedAll(say, fs), FindingLe())
  }

  /** Diff two documents, given with their canonical texts; `say` renders sentences. */
  method Between(was: Doc, now: Doc, wasText: seq<Byte>, nowText: seq<Byte>, say: Finding -> string)
    returns (report: AuthorityReport)
    ensures report == AuthorityReport(SCHEMA, Label(was), Label(now), DigestOf(wasText), DigestOf(nowText),
                                      Listed(say, ProgramFindings(was, now)))
  {
    hide ProgramFindings, SortDedup, Hex;
    var findings := new FindingList();
    DiffProgram(was, now, findings);
    assert findings.items == ProgramFindings(was, now);
    var wasDigest := Sha256.Sha256Of(wasText);
    var nowDigest := Sha256.Sha256Of(nowText);
    report := AuthorityReport(SCHEMA, Label(was), Label(now), Hex(wasDigest), Hex(nowDigest),
                              Listed(say, findings.items));
  }

  lemma {:induction false} HexInjective(a: seq<Byte>, b: seq<Byte>)
    requires Hex(a) == Hex(b)
    ensures a == b
  {
    if a != [] && b != [] {
      var x, y := Hex(a), Hex(b);
      assert x[0] == HexDigit(a[0] / 16) && x[1] == HexDigit(a[0] % 16) && x[2..] == Hex(a[1..]);
      assert y[0] == HexDigit(b[0] / 16) && y[1] == HexDigit(b[0] % 16) && y[2..] == Hex(b[1..]);
      HexDigitInjective(a[0] / 16, b[0] / 16);
      HexDigitInjective(a[0] % 16, b[0] % 16);
      HexInjective(a[1..], b[1..]);
      assert a == [a[0]] + a[1..] && b == [b[0]] + b[1..];
    }
  }

  lemma HexDigitInjective(m: nat, n: nat)
    requires m < 16 && n < 16
    ensures HexDigit(m) == HexDigit(n) <==> m == n
  {}

  function VerdictOf(findings: seq<AuthorityFinding>): Verdict {
    if exists f :: f in findings && f.impact == Widened then VerdictWidened
    else if exists f :: f in findings && f.impact == Review then VerdictReview
    else NotWidened
  }

  /** The verdict on two documents. */
  ghost function VerdictOn(say: Finding -> string, was: Doc, now: Doc): Verdict {
    VerdictOf(Listed(say, ProgramFindings(was, now)))
  }

  /** Whatever the sentences are, reordering and dropping repeats lose nothing:
      findings that render to the same set, and only they, give equal reports. */
  lemma ReportCanonical(say: Finding -> string, fs: seq<Finding>, gs: seq<Finding>)
    ensures Listed(say, fs) == Listed(say, gs) <==> Elements(ReportedAll(say, fs)) == Elements(ReportedAll(say, gs))
  {
    FindingLeTotal();
    hide FindingLe, TotalOrder, SortDedup;
    SortDedupCanonical(ReportedAll(say, fs), ReportedAll(say, gs), FindingLe());
  }

  /** The verdict is that of the findings as pushed: the impacts of the report are theirs. */
  lemma VerdictExact(say: Finding -> string, fs: seq<Finding>)
    ensures VerdictOf(Listed(say, fs)) == VerdictWidened <==> exists f :: f in fs && f.impact == Widened
    ensures VerdictOf(Listed(say, fs)) == NotWidened <==> Quiet(fs)
  {
    hide FindingLe, CodeName;
    var shown, listed := ReportedAll(say, fs), Listed(say, fs);
    assert forall r :: r in listed <==> r in shown;
    forall f | f in fs ensures Reported(say, f) in listed {
      var k :| 0 <= k < |fs| && fs[k] == f;
      assert shown[k] in shown;
    }
    forall r | r in listed ensures exists f :: f in fs && r == Reported(say, f) {
      var k :| 0 <= k < |shown| && shown[k] == r;
      assert fs[k] in fs;
    }
  }

  /** Widened findings come first, then those to review, then the rest, none twice. */
  lemma WidenedFirst(say: Finding -> string, fs: seq<Finding>, i: nat, j: nat)
    requires i < j < |Listed(say, fs)|
    ensures var r := Listed(say, fs); ImpactRank(r[i].impact) <= ImpactRank(r[j].impact) && r[i] != r[j]
  {
    FindingLeTotal();
    var r := Listed(say, fs);
    assert Increasing(r, FindingLe());
    assert FindingLe()(r[i], r[j]);
  }

  function Missing(findings: seq<AuthorityFinding>, approved: seq<AuthorityFinding>): (r: seq<AuthorityFinding>)
    ensures forall f :: f in r <==> f in findings && Blocking(f.impact) && f !in approved
  {
    if findings == [] then []
    else
      assert findings == [findings[0]] + findings[1..];
      (if Blocking(findings[0].impact) && findings[0] !in approved then [findings[0]] else [])
      + Missing(findings[1..], approved)
  }

  /** `None` approves. */
  function CheckApproval(report: AuthorityReport, approved: AuthorityReport): Option<ApprovalError> {
    if approved.schema != SCHEMA then Some(SchemaError(approved.schema))
    else if approved.oldDigest != report.oldDigest then
      Some(DigestMismatch("old", approved.oldDigest, report.oldDigest))
    else if approved.newDigest != report.newDigest then
      Some(DigestMismatch("new", approved.newDigest, report.newDigest))
    else
      var unapproved := Missing(report.findings, approved.findings);
      if unapproved == [] then None else Some(Unapproved(unapproved))
  }

  /** Approval succeeds exactly for the same schema and manifest pair with every
      blocking finding listed; a refusal lists exactly the blocking findings left out. */
  lemma ApprovalExact(report: AuthorityReport, approved: AuthorityReport)
    ensures CheckApproval(report, approved).None?
       <==> && approved.schema == SCHEMA
            && approved.oldDigest == report.oldDigest && approved.newDigest == report.newDigest
            && forall f :: f in report.findings && Blocking(f.impact) ==> f in approved.findings
    ensures forall fs :: CheckApproval(report, approved) == Some(Unapproved(fs)) ==>
      forall f :: f in fs <==> f in report.findings && Blocking(f.impact) && f !in approved.findings
  {
    var unapproved := Missing(report.findings, approved.findings);
    if unapproved != [] { assert unapproved[0] in unapproved; }
  }
}
