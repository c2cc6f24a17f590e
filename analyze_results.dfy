/** The test-result analyzer: a result file is cut into blocks at dash rules,
    each block headed by a bracketed label is judged against the status it
    expects, and the passes and failures are counted per file and overall. */
module AnalyzeResults {
  import opened Common

  /** A rule is a run of at least this many '-' characters. */
  const RuleLength: nat := 60

  const LoginMarker: string := "<<LOGIN_MODAL_REQUIRED>>"

  // ---------------------------------------------------------------------
  // Cutting the content at dash rules: `re.split(r'-{60,}', content)`
  // ---------------------------------------------------------------------

  /** The number of consecutive characters satisfying `p` from position `i`. */
  function Run(s: string, i: nat, p: char -> bool): (r: nat)
    requires i <= |s|
    ensures i + r <= |s|
    ensures forall j :: i <= j < i + r ==> p(s[j])
    ensures i + r < |s| ==> !p(s[i + r])
    decreases |s| - i
  {
    if i < |s| && p(s[i]) then 1 + Run(s, i + 1, p) else 0
  }

  predicate IsDash(c: char) {
    c == '-'
  }

  /** A rule starts at `k`. */
  predicate RuleAt(s: string, k: nat) {
    k + RuleLength <= |s| && forall j :: k <= j < k + RuleLength ==> s[j] == '-'
  }

  /** The leftmost rule at or after `k`. */
  function FindRule(s: string, k: nat): (r: Option<nat>)
    ensures r.Some? ==> k <= r.value && RuleAt(s, r.value)
    ensures forall j :: k <= j && (r.None? || j < r.value) ==> !RuleAt(s, j)
    decreases |s| - k
  {
    if k + RuleLength > |s| then None
    else if RuleAt(s, k) then Some(k)
    else FindRule(s, k + 1)
  }

  /** The pieces between the rules; a rule swallows its whole dash run. */
  function SplitOnRules(s: string): (r: seq<string>)
    ensures |r| >= 1
    decreases |s|
  {
    match FindRule(s, 0)
    case None => [s]
    case Some(i) =>
      var n := Run(s, i, IsDash);
      assert n >= RuleLength;
      [s[..i]] + SplitOnRules(s[i + n..])
  }

  /** No piece holds a rule. */
  lemma {:induction false} PiecesHoldNoRule(s: string)
    ensures forall k, j :: 0 <= k < |SplitOnRules(s)| ==> !RuleAt(SplitOnRules(s)[k], j)
    decreases |s|
  {
    match FindRule(s, 0)
    case None =>
      forall j ensures !RuleAt(s, j) { }
    case Some(i) =>
      var n := Run(s, i, IsDash);
      var rest := s[i + n..];
      PiecesHoldNoRule(rest);
      forall j ensures !RuleAt(s[..i], j) {
        RuleInPrefix(s, i, j);
      }
      assert SplitOnRules(s) == [s[..i]] + SplitOnRules(rest);
  }

  /** A rule inside a prefix is a rule of the whole text, before the prefix ends. */
  lemma RuleInPrefix(s: string, i: nat, j: nat)
    requires i <= |s|
    ensures RuleAt(s[..i], j) ==> j < i && RuleAt(s, j)
  {
    if RuleAt(s[..i], j) {
      forall t | j <= t < j + RuleLength
        ensures s[t] == '-'
      {
        assert s[..i][t] == '-';
      }
    }
  }

  /** A piece after a rule never begins with '-': the rule took the whole run. */
  lemma {:induction false} LaterPiecesStartOffDash(s: string)
    ensures forall k :: 1 <= k < |SplitOnRules(s)| && SplitOnRules(s)[k] != "" ==> SplitOnRules(s)[k][0] != '-'
    decreases |s|
  {
    match FindRule(s, 0)
    case None =>
    case Some(i) =>
      var n := Run(s, i, IsDash);
      var rest := s[i + n..];
      LaterPiecesStartOffDash(rest);
      assert SplitOnRules(s) == [s[..i]] + SplitOnRules(rest);
      var first := SplitOnRules(rest)[0];
      if first != "" {
        match FindRule(rest, 0)
        case None =>
        case Some(i') =>
          assert first == rest[..i'];
      }
  }

  /** The lengths of the dash runs the split removes, in order. */
  function RuleRuns(s: string): (r: seq<nat>)
    ensures forall k :: 0 <= k < |r| ==> r[k] >= RuleLength
    decreases |s|
  {
    match FindRule(s, 0)
    case None => []
    case Some(i) =>
      var n := Run(s, i, IsDash);
      assert n >= RuleLength;
      [n] + RuleRuns(s[i + n..])
  }

  /** The pieces put back together, each removed run restored between two pieces. */
  function Rejoin(pieces: seq<string>, runs: seq<nat>): string
    requires |pieces| == |runs| + 1
    decreases |runs|
  {
    if runs == [] then pieces[0]
    else pieces[0] + Repeat("-", runs[0]) + Rejoin(pieces[1..], runs[1..])
  }

  /** The pieces are the text between the rules: one more piece than rules, and
      putting the removed runs back between them gives the text again. */
  lemma {:induction false} SplitRebuilds(s: string)
    ensures |SplitOnRules(s)| == |RuleRuns(s)| + 1
    ensures Rejoin(SplitOnRules(s), RuleRuns(s)) == s
    decreases |s|
  {
    match FindRule(s, 0)
    case None =>
    case Some(i) =>
      var n := Run(s, i, IsDash);
      var rest := s[i + n..];
      SplitRebuilds(rest);
      DashesRestored(s, i, n);
      RejoinCons(s[..i], n, SplitOnRules(rest), RuleRuns(rest));
  }

  /** Cutting out a run of dashes and putting the same number back changes nothing. */
  lemma DashesRestored(s: string, i: nat, n: nat)
    requires i + n <= |s|
    requires forall j :: i <= j < i + n ==> IsDash(s[j])
    ensures s[..i] + Repeat("-", n) + s[i + n..] == s
  {
    var d := Repeat("-", n);
    assert s[i..i + n] == d;
    assert s == s[..i] + s[i..i + n] + s[i + n..];
  }

  /** One piece and one run in front of the rest. */
  lemma RejoinCons(piece: string, n: nat, pieces: seq<string>, runs: seq<nat>)
    requires |pieces| == |runs| + 1
    ensures Rejoin([piece] + pieces, [n] + runs) == piece + Repeat("-", n) + Rejoin(pieces, runs)
  {
    assert ([piece] + pieces)[1..] == pieces && ([n] + runs)[1..] == runs;
  }

  /** A piece before a rule never ends with '-': the rule is the leftmost one, so
      it took the whole run. */
  lemma {:induction false} EarlierPiecesEndOffDash(s: string)
    ensures forall k :: 0 <= k < |SplitOnRules(s)| - 1 && SplitOnRules(s)[k] != "" ==>
      SplitOnRules(s)[k][|SplitOnRules(s)[k]| - 1] != '-'
    decreases |s|
  {
    match FindRule(s, 0)
    case None =>
    case Some(i) =>
      var n := Run(s, i, IsDash);
      var rest := s[i + n..];
      EarlierPiecesEndOffDash(rest);
      assert SplitOnRules(s) == [s[..i]] + SplitOnRules(rest);
      if i > 0 && s[i - 1] == '-' {
        assert RuleAt(s, i - 1);
        assert false;
      }
  }

  // ---------------------------------------------------------------------
  // The expected status of a block
  // ---------------------------------------------------------------------

  /** `re.search(r'expect\s+(\d+)', header, re.IGNORECASE)` matches at `k`. */
  predicate ExpectAt(h: string, k: nat) {
    && k + 6 <= |h|
    && Lower(h[k..k + 6]) == "expect"
    && var w := Run(h, k + 6, IsSpace);
      w >= 1 && k + 6 + w < |h| && IsDigit(h[k + 6 + w])
  }

  function FindExpect(h: string, k: nat): (r: Option<nat>)
    ensures r.Some? ==> k <= r.value && ExpectAt(h, r.value)
    ensures forall j :: k <= j && (r.None? || j < r.value) ==> !ExpectAt(h, j)
    decreases |h| - k
  {
    if k + 6 > |h| then None
    else if ExpectAt(h, k) then Some(k)
    else FindExpect(h, k + 1)
  }

  /** The status code an "expect N" in the header asks for, from its leftmost occurrence. */
  function ExpectOverride(h: string): (r: Option<nat>)
    ensures r.Some? <==> exists k :: ExpectAt(h, k)
  {
    match FindExpect(h, 0)
    case None => None
    case Some(k) =>
      var d := k + 6 + Run(h, k + 6, IsSpace);
      var digits := h[d..d + Run(h, d, IsDigit)];
      Some(DecimalValue(digits))
  }

  /** The status a block expects when the header names no code. */
  function DefaultStatus(h: string): (r: int)
    ensures r == 200 <==> Contains(h, "GET") || Contains(h, "Health") || Contains(h, "STREAM")
    ensures r == 200 || r == 201
  {
    if Contains(h, "GET") || Contains(h, "Health") || Contains(h, "STREAM") then 200 else 201
  }

  /** The blocks of an unauthenticated request that must ask the user to log in. */
  predicate IsLoginTest(h: string) {
    Contains(h, "LOGIN_REQUIRED") || (Contains(h, "unauth") && (Contains(h, "ECARD") || Contains(h, "STATUS_CHECK")))
  }

  /** The three `elif` cases that reset the expectation to 201. */
  predicate LoginExpectation(h: string) {
    || (Contains(h, "unauth") && Contains(h, "LOGIN_REQUIRED"))
    || (Contains(h, "ECARD") && Contains(h, "unauth"))
    || (Contains(h, "STATUS_CHECK") && Contains(h, "unauth"))
  }

  /** `expected_status` as the analyzer computes it. */
  function ExpectedStatus(h: string): int {
    match ExpectOverride(h)
    case Some(n) => n
    case None => if LoginExpectation(h) then 201 else DefaultStatus(h)
  }

  /** The `elif` resets only fire on login blocks, whose verdict ignores the
      expectation; so everywhere it matters an "expect N" wins, and otherwise
      the default holds. */
  lemma ExpectedStatusOutsideLogin(h: string)
    requires !IsLoginTest(h)
    ensures ExpectOverride(h).Some? ==> ExpectedStatus(h) == ExpectOverride(h).value
    ensures ExpectOverride(h).None? ==> ExpectedStatus(h) == DefaultStatus(h)
    ensures ExpectOverride(h).None? ==> (ExpectedStatus(h) == 200 <==> Contains(h, "GET") || Contains(h, "Health") || Contains(h, "STREAM"))
  {
  }

  // ---------------------------------------------------------------------
  // The actual status of a block
  // ---------------------------------------------------------------------

  /** The status a single line reports; a line whose number does not parse reports none. */
  function StatusOfLine(line: string): Option<int> {
    if StartsWith(Strip(line), "Status :") then
      var parts := Split(line, ':');
      if |parts| >= 2 then ParseInt(parts[1]) else None
    else None
  }

  /** The last report among the given ones. */
  function LastReport(reports: seq<Option<int>>): (r: Option<int>)
    ensures r.None? <==> forall k :: 0 <= k < |reports| ==> reports[k].None?
  {
    if reports == [] then None
    else if reports[|reports| - 1].Some? then reports[|reports| - 1]
    else
      assert forall k :: 0 <= k < |reports| - 1 ==> reports[..|reports| - 1][k] == reports[k];
      LastReport(reports[..|reports| - 1])
  }

  /** The status of a block: that of its last line that reports one. */
  function LastStatus(lines: seq<string>): Option<int> {
    LastReport(Map(StatusOfLine, lines))
  }

  lemma LastReportSnoc(reports: seq<Option<int>>, report: Option<int>)
    ensures LastReport(reports + [report]) == if report.Some? then report else LastReport(reports)
  {
    var all := reports + [report];
    assert all[..|all| - 1] == reports;
    assert all[|all| - 1] == report;
  }

  /** Report `k` carries `v` and no later report carries anything. */
  predicate LastReportAt(reports: seq<Option<int>>, k: int, v: int) {
    && 0 <= k < |reports|
    && reports[k] == Some(v)
    && forall j :: k < j < |reports| ==> reports[j].None?
  }

  /** Several "Status :" lines: the last one wins. */
  lemma {:induction false} LastReportWins(reports: seq<Option<int>>, v: int)
    ensures LastReport(reports) == Some(v) <==> exists k :: LastReportAt(reports, k, v)
  {
    if reports != [] {
      var n := |reports| - 1;
      var init := reports[..n];
      assert reports == init + [reports[n]];
      LastReportSnoc(init, reports[n]);
      if reports[n].None? {
        LastReportWins(init, v);
        if LastReport(reports) == Some(v) {
          var k :| LastReportAt(init, k, v);
          assert LastReportAt(reports, k, v);
        }
        if exists k :: LastReportAt(reports, k, v) {
          var k :| LastReportAt(reports, k, v);
          assert LastReportAt(init, k, v);
        }
      } else if reports[n] == Some(v) {
        assert LastReportAt(reports, n, v);
      } else {
        assert forall k :: LastReportAt(reports, k, v) ==> k == n;
      }
    }
  }

  /** The inner loop: `actual_status` is overwritten by every line that reports one. */
  method ExtractStatus(lines: seq<string>) returns (actual: Option<int>)
    ensures actual == LastStatus(lines)
  {
    ghost var reports := Map(StatusOfLine, lines);
    actual := None;
    var k := 0;
    while k < |lines|
      invariant 0 <= k <= |lines|
      invariant actual == LastReport(reports[..k])
    {
      MapIndex(StatusOfLine, lines, k);
      assert reports[..k + 1] == reports[..k] + [reports[k]];
      LastReportSnoc(reports[..k], reports[k]);
      var s := StatusOfLine(lines[k]);
      if s.Some? {
        actual := s;
      }
      k := k + 1;
    }
    assert reports[..k] == reports;
  }

  // ---------------------------------------------------------------------
  // Judging a block
  // ---------------------------------------------------------------------

  datatype Verdict = Skipped | Passed | Failed

  predicate IsBracketed(header: string) {
    StartsWith(header, "[") && EndsWith(header, "]")
  }

  /** The header line of a stripped block. */
  function HeaderOf(section: string): string {
    Strip(Split(section, '\n')[0])
  }

  /** The verdict for one piece of the content. */
  function Judge(piece: string): Verdict {
    var section := Strip(piece);
    if section == "" then Skipped
    else
      var lines := Split(section, '\n');
      var header := Strip(lines[0]);
      if !IsBracketed(header) then Skipped
      else match LastStatus(lines)
        case None => Skipped
        case Some(actual) =>
          if IsLoginTest(header) then
            if actual == 201 && Contains(section, LoginMarker) then Passed else Failed
          else if actual == ExpectedStatus(header) then Passed
          else Failed
  }

  /** A block is counted iff it is non-blank, its first line is bracketed and
      some line reports a status. */
  lemma JudgeCounts(piece: string)
    ensures Judge(piece) != Skipped <==>
      && Strip(piece) != ""
      && IsBracketed(HeaderOf(Strip(piece)))
      && LastStatus(Split(Strip(piece), '\n')).Some?
  {
  }

  /** A login block passes iff it reports 201 and carries the login marker,
      whatever status its header expects. */
  lemma LoginVerdict(piece: string)
    requires Judge(piece) != Skipped
    requires IsLoginTest(HeaderOf(Strip(piece)))
    ensures Judge(piece) == Passed <==>
      LastStatus(Split(Strip(piece), '\n')) == Some(201) && Contains(Strip(piece), LoginMarker)
  {
  }

  /** Any other block passes iff it reports the status its header expects. */
  lemma PlainVerdict(piece: string)
    requires Judge(piece) != Skipped
    requires !IsLoginTest(HeaderOf(Strip(piece)))
    ensures Judge(piece) == Passed <==>
      LastStatus(Split(Strip(piece), '\n')) == Some(ExpectedStatus(HeaderOf(Strip(piece))))
  {
  }

  // ---------------------------------------------------------------------
  // Counting
  // ---------------------------------------------------------------------

  datatype Counts = Counts(total: nat, passed: nat, failed: nat)

  function Count(c: Counts, v: Verdict): Counts {
    match v
    case Skipped => c
    case Passed => Counts(c.total + 1, c.passed + 1, c.failed)
    case Failed => Counts(c.total + 1, c.passed, c.failed + 1)
  }

  /** The counts over a sequence of verdicts; every counted block is either a
      pass or a failure. */
  function Tally(verdicts: seq<Verdict>): (r: Counts)
    ensures r.passed + r.failed == r.total
    ensures r.total <= |verdicts|
  {
    if verdicts == [] then Counts(0, 0, 0)
    else Count(Tally(verdicts[..|verdicts| - 1]), verdicts[|verdicts| - 1])
  }

  lemma TallySnoc(verdicts: seq<Verdict>, v: Verdict)
    ensures Tally(verdicts + [v]) == Count(Tally(verdicts), v)
  {
    var all := verdicts + [v];
    assert all[..|all| - 1] == verdicts;
    assert all[|all| - 1] == v;
  }

  /** The counts for one file's content. */
  function FileTally(content: string): (r: Counts)
    ensures r.passed + r.failed == r.total
  {
    Tally(Map(Judge, SplitOnRules(content)))
  }

  /** The body of `analyze_file`'s section loop: the verdict on one piece. */
  method JudgeSection(piece: string) returns (v: Verdict)
    ensures v == Judge(piece)
  {
    var section := Strip(piece);
    if section == "" {
      return Skipped;
    }
    var lines := Split(section, '\n');
    var header := Strip(lines[0]);
    if !IsBracketed(header) {
      return Skipped;
    }
    var expected := ExpectedStatus(header);
    var actual := ExtractStatus(lines);
    if actual.None? {
      return Skipped;
    }
    if IsLoginTest(header) {
      if actual.value == 201 && Contains(section, LoginMarker) {
        v := Passed;
      } else {
        v := Failed;
      }
    } else if actual.value == expected {
      v := Passed;
    } else {
      v := Failed;
    }
  }

  /** The verdict on the `k`-th piece, as the section loop reaches it. */
  method JudgeAt(sections: seq<string>, k: nat) returns (v: Verdict)
    requires k < |sections|
    ensures v == Map(Judge, sections)[k]
  {
    v := JudgeSection(sections[k]);
    MapIndex(Judge, sections, k);
  }

  /** One more verdict extends the tally of a prefix by that verdict. */
  lemma TallyStep(verdicts: seq<Verdict>, k: nat)
    requires k < |verdicts|
    ensures Tally(verdicts[..k + 1]) == Count(Tally(verdicts[..k]), verdicts[k])
  {
    assert verdicts[..k + 1] == verdicts[..k] + [verdicts[k]];
    TallySnoc(verdicts[..k], verdicts[k]);
  }

  /** `analyze_file` once the file's content has been read. */
  method AnalyzeFile(content: string) returns (total: nat, passed: nat, failed: nat)
    ensures Counts(total, passed, failed) == FileTally(content)
    ensures passed + failed == total
  {
    var sections := SplitOnRules(content);
    ghost var verdicts := Map(Judge, sections);
    total, passed, failed := 0, 0, 0;
    var k := 0;
    while k < |sections|
      invariant 0 <= k <= |sections|
      invariant Counts(total, passed, failed) == Tally(verdicts[..k])
    {
      var v := JudgeAt(sections, k);
      TallyStep(verdicts, k);
      total, passed, failed := Record(total, passed, failed, v);
      k := k + 1;
    }
    assert verdicts[..k] == verdicts;
  }

  /** The counters' update for one section: a counted section adds to the
      total and to the passes or the failures. */
  method Record(total: nat, passed: nat, failed: nat, v: Verdict) returns (total': nat, passed': nat, failed': nat)
    ensures Counts(total', passed', failed') == Count(Counts(total, passed, failed), v)
  {
    total', passed', failed' := total, passed, failed;
    if v != Skipped {
      total' := total' + 1;
      if v == Passed {
        passed' := passed' + 1;
      } else {
        failed' := failed' + 1;
      }
    }
  }

  // ---------------------------------------------------------------------
  // Grand totals over a directory of result files
  // ---------------------------------------------------------------------

  /** A result file: its name and its content. */
  datatype ResultFile = ResultFile(name: string, content: string)

  function Plus(a: Counts, b: Counts): Counts {
    Counts(a.total + b.total, a.passed + b.passed, a.failed + b.failed)
  }

  /** What one directory entry adds: its counts if it is a ".txt" file, nothing otherwise. */
  function FileCounts(f: ResultFile): (r: Counts)
    ensures r.passed + r.failed == r.total
    ensures !EndsWith(f.name, ".txt") ==> r == Counts(0, 0, 0)
  {
    if EndsWith(f.name, ".txt") then FileTally(f.content) else Counts(0, 0, 0)
  }

  /** The sum of a sequence of counts. */
  function Sum(cs: seq<Counts>): Counts {
    if cs == [] then Counts(0, 0, 0)
    else Plus(Sum(cs[..|cs| - 1]), cs[|cs| - 1])
  }

  lemma SumSnoc(cs: seq<Counts>, c: Counts)
    ensures Sum(cs + [c]) == Plus(Sum(cs), c)
  {
    var all := cs + [c];
    assert all[..|all| - 1] == cs;
    assert all[|all| - 1] == c;
  }

  /** Sums are additive over concatenation. */
  lemma {:induction false} SumAppend(a: seq<Counts>, b: seq<Counts>)
    ensures Sum(a + b) == Plus(Sum(a), Sum(b))
    decreases |b|
  {
    if b == [] {
      assert a + b == a;
    } else {
      var b' := b[..|b| - 1];
      var c := b[|b| - 1];
      assert b == b' + [c];
      assert a + b == (a + b') + [c];
      SumAppend(a, b');
      SumSnoc(a + b', c);
      SumSnoc(b', c);
    }
  }

  /** A sum of balanced counts is balanced. */
  lemma {:induction false} SumBalanced(cs: seq<Counts>)
    requires forall k :: 0 <= k < |cs| ==> cs[k].passed + cs[k].failed == cs[k].total
    ensures Sum(cs).passed + Sum(cs).failed == Sum(cs).total
  {
    if cs != [] {
      SumBalanced(cs[..|cs| - 1]);
    }
  }

  /** The grand totals over a directory listing: the sum of the per-file counts. */
  function GrandTally(files: seq<ResultFile>): Counts {
    Sum(Map(FileCounts, files))
  }

  /** Every test counted overall is a pass or a failure. */
  lemma GrandTallyBalanced(files: seq<ResultFile>)
    ensures GrandTally(files).passed + GrandTally(files).failed == GrandTally(files).total
  {
    var cs := Map(FileCounts, files);
    forall k | 0 <= k < |cs|
      ensures cs[k].passed + cs[k].failed == cs[k].total
    {
      MapIndex(FileCounts, files, k);
    }
    SumBalanced(cs);
  }

  /** The grand totals of two listings together are the sums of their totals. */
  lemma GrandTallyAppend(a: seq<ResultFile>, b: seq<ResultFile>)
    ensures GrandTally(a + b) == Plus(GrandTally(a), GrandTally(b))
  {
    MapAppend(FileCounts, a, b);
    SumAppend(Map(FileCounts, a), Map(FileCounts, b));
  }

  /** What the directory loop adds for one entry. */
  method CountFile(f: ResultFile) returns (t: nat, p: nat, fl: nat)
    ensures Counts(t, p, fl) == FileCounts(f)
  {
    if EndsWith(f.name, ".txt") {
      t, p, fl := AnalyzeFile(f.content);
    } else {
      t, p, fl := 0, 0, 0;
    }
  }

  /** One more entry extends the grand totals of the entries seen so far. */
  lemma GrandTallyStep(files: seq<ResultFile>, k: nat)
    requires k < |files|
    ensures GrandTally(files[..k + 1]) == Plus(GrandTally(files[..k]), FileCounts(files[k]))
  {
    MapPrefixStep(FileCounts, files, k);
    SumSnoc(Map(FileCounts, files[..k]), FileCounts(files[k]));
  }

  /** `main`'s accumulation of the grand totals. */
  method GrandTotals(files: seq<ResultFile>) returns (grandTotal: nat, grandPassed: nat, grandFailed: nat)
    ensures Counts(grandTotal, grandPassed, grandFailed) == GrandTally(files)
    ensures grandPassed + grandFailed == grandTotal
  {
    GrandTallyBalanced(files);
    grandTotal, grandPassed, grandFailed := 0, 0, 0;
    var k := 0;
    while k < |files|
      invariant 0 <= k <= |files|
      invariant Counts(grandTotal, grandPassed, grandFailed) == GrandTally(files[..k])
    {
      var t, p, fl := CountFile(files[k]);
      GrandTallyStep(files, k);
      grandTotal := grandTotal + t;
      grandPassed := grandPassed + p;
      grandFailed := grandFailed + fl;
      k := k + 1;
    }
    assert files[..k] == files;
  }
}
