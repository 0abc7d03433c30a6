/**
 Reading the scanner's output. A greedy pattern takes each "<path>: <signature> FOUND" line
 apart; the fold over all lines collects findings, reports progress and settles the totals.
 */
module ScanOutput {
  import opened Text
  import opened Wrappers

  datatype Finding = Finding(path: string, signature: string)

  datatype Label = InfectedFiles | ScannedFiles | TotalErrors

  /** What one output line says. */
  datatype Line =
    | Found(finding: Finding)
    | Passed
    | Summary(what: Label, count: nat)
    | Engine(version: string)
    | Noise

  // -------------------------------------------------------- the line patterns

  /** A separator leaves at least one character for the signature. */
  predicate IsSeparator(body: string, at: nat) {
    at + 2 < |body| && OccursAt(body, ": ", at)
  }

  /** The last separator before position `n`: a greedy match prefers it. */
  function LastSeparator(body: string, n: nat): (at: Option<nat>)
    ensures at.Some? ==> at.value < n && IsSeparator(body, at.value)
    ensures forall j: nat :: j < n && (at.Some? ==> at.value < j) ==> !IsSeparator(body, j)
  {
    if n == 0 then None
    else if IsSeparator(body, n - 1) then Some(n - 1)
    else LastSeparator(body, n - 1)
  }

  const FOUND := " FOUND"

  /** `^(.*): (.+) FOUND$`, where a dot matches anything but a newline. */
  function ParseFound(line: string): Option<Finding> {
    if '\n' in line || !HasSuffix(line, FOUND) then None
    else
      var body := line[..|line| - |FOUND|];
      var at := LastSeparator(body, |body|);
      if at.None? then None
      else Some(Finding(body[..at.value], body[at.value + 2..]))
  }

  /** The class `\s` of Go's regular expressions. */
  predicate IsBlank(c: char) {
    c == '\t' || c == '\n' || c == '\U{000C}' || c == '\r' || c == ' '
  }

  function SkipBlanks(s: string): string {
    if s != "" && IsBlank(s[0]) then SkipBlanks(s[1..]) else s
  }

  function LeadingDigits(s: string): (digits: string)
    ensures digits <= s && AllDigits(digits)
  {
    if s != "" && IsDigit(s[0]) then [s[0]] + LeadingDigits(s[1..]) else ""
  }

  function LeadingWord(s: string): (word: string)
    ensures word <= s && forall i :: 0 <= i < |word| ==> !IsBlank(word[i])
  {
    if s != "" && !IsBlank(s[0]) then [s[0]] + LeadingWord(s[1..]) else ""
  }

  const MAX_INT: nat := 0x7FFF_FFFF_FFFF_FFFF

  /** `strconv.Atoi` with its error ignored: too large a number becomes the largest one. */
  function Clamped(digits: string): nat
    requires AllDigits(digits)
  {
    if DecimalValue(digits) > MAX_INT then MAX_INT else DecimalValue(digits)
  }

  function LabelText(what: Label): string {
    match what
    case InfectedFiles => "Infected files:"
    case ScannedFiles => "Scanned files:"
    case TotalErrors => "Total errors:"
  }

  function LabelOf(line: string): Option<Label> {
    if HasPrefix(line, LabelText(InfectedFiles)) then Some(InfectedFiles)
    else if HasPrefix(line, LabelText(ScannedFiles)) then Some(ScannedFiles)
    else if HasPrefix(line, LabelText(TotalErrors)) then Some(TotalErrors)
    else None
  }

  /** `^(Infected files|Scanned files|Total errors):\s*(\d+)`. */
  function ParseSummary(line: string): Option<(Label, nat)> {
    var what := LabelOf(line);
    if what.None? then None
    else
      var digits := LeadingDigits(SkipBlanks(line[|LabelText(what.value)|..]));
      if digits == "" then None else Some((what.value, Clamped(digits)))
  }

  const ENGINE := "Engine version:"

  /** `^Engine version:\s*(\S+)`. */
  function ParseEngine(line: string): Option<string> {
    if !HasPrefix(line, ENGINE) then None
    else
      var word := LeadingWord(SkipBlanks(line[|ENGINE|..]));
      if word == "" then None else Some(word)
  }

  const OK := ": OK"

  /** The first pattern that matches decides. */
  function Classify(raw: string): Line {
    var line := TrimRight(raw, '\r');
    var found := ParseFound(line);
    if found.Some? then Found(found.value)
    else if HasSuffix(line, OK) then Passed
    else
      var summary := ParseSummary(line);
      if summary.Some? then Summary(summary.value.0, summary.value.1)
      else
        var engine := ParseEngine(line);
        if engine.Some? then Engine(engine.value) else Noise
  }

  // ------------------------------------------------------------- round trips

  function FoundLine(f: Finding): string {
    f.path + ": " + f.signature + FOUND
  }

  /** A signature the greedy pattern cannot split: not empty, and no separator inside. */
  predicate Unsplittable(signature: string) {
    signature != "" && forall j: nat :: j < |signature| ==> !IsSeparator(signature, j)
  }

  lemma SeparatorsOfBody(path: string, signature: string, j: nat)
    ensures var body := path + ": " + signature;
            j >= |path| ==> (IsSeparator(body, j) <==>
                             (j == |path| && signature != "") || (j >= |path| + 2 && IsSeparator(signature, j - |path| - 2)))
  {
    var body := path + ": " + signature;
    if |path| <= j && j + 2 <= |body| {
      if j == |path| {
        assert body[j..j + 2] == ": ";
      } else if j == |path| + 1 {
        assert body[j..j + 2][0] == ' ';
      } else {
        var k := j - |path| - 2;
        assert body[j..j + 2] == signature[k..k + 2];
      }
    }
  }

  /** A finding that its line gives back. */
  predicate Readable(f: Finding) {
    '\n' !in f.path && '\n' !in f.signature && Unsplittable(f.signature)
  }

  /**
   Taking a finding line apart gives the finding back exactly when it holds no newline and the
   signature is unsplittable. The path may contain anything else, separators included.
   */
  lemma FoundRoundTrip(f: Finding)
    ensures ParseFound(FoundLine(f)) == Some(f) <==> Readable(f)
  {
    var line := FoundLine(f);
    var body := f.path + ": " + f.signature;
    assert line == body + FOUND;
    assert line[|line| - |FOUND|..] == FOUND && line[..|line| - |FOUND|] == body;
    NewlineInFoundLine(f);
    if '\n' !in line {
      var at := LastSeparator(body, |body|);
      SeparatorsOfBody(f.path, f.signature, |f.path|);
      if Unsplittable(f.signature) {
        forall j: nat | |f.path| < j < |body|
          ensures !IsSeparator(body, j)
        {
          SeparatorsOfBody(f.path, f.signature, j);
        }
        assert at == Some(|f.path|);
        assert body[..|f.path|] == f.path && body[|f.path| + 2..] == f.signature;
      } else if f.signature != "" {
        var j: nat :| j < |f.signature| && IsSeparator(f.signature, j);
        SeparatorsOfBody(f.path, f.signature, j + |f.path| + 2);
        assert IsSeparator(body, j + |f.path| + 2);
      }
    }
  }

  lemma NewlineInFoundLine(f: Finding)
    ensures '\n' in FoundLine(f) <==> '\n' in f.path || '\n' in f.signature
  {
    assert FoundLine(f) == f.path + (": " + (f.signature + FOUND));
    assert '\n' !in ": " && '\n' !in FOUND;
  }

  lemma TrimRightKeeps(s: string, c: char)
    requires s == "" || s[|s| - 1] != c
    ensures TrimRight(s, c) == s
  {
  }

  /** One scanned file as the scanner reports it. */
  datatype Report = Infected(finding: Finding) | Healthy(path: string)

  function Printed(r: Report): string {
    match r
    case Infected(f) => FoundLine(f)
    case Healthy(path) => path + OK
  }

  lemma ClassifyFound(f: Finding)
    ensures Classify(FoundLine(f)) == Found(f) <==> Readable(f)
  {
    var line := FoundLine(f);
    assert line[|line| - 1] == FOUND[|FOUND| - 1] == 'D';
    TrimRightKeeps(line, '\r');
    FoundRoundTrip(f);
  }

  lemma ClassifyOk(front: string)
    ensures Classify(front + OK) == Passed
  {
    var line := front + OK;
    assert line[|line| - |OK|..] == OK;
    assert line[|line| - 1] == OK[|OK| - 1] == 'K';
    TrimRightKeeps(line, '\r');
  }

  // --------------------------------------------------- what a stream of lines says

  /** The findings of a stream, in order. */
  function FoundIn(lines: seq<string>): seq<Finding> {
    if lines == [] then []
    else
      var front, last := FoundIn(lines[..|lines| - 1]), Classify(lines[|lines| - 1]);
      if last.Found? then front + [last.finding] else front
  }

  predicate IsResult(line: Line) {
    line.Found? || line.Passed?
  }

  /** How many lines report a scanned file. */
  function ResultCount(lines: seq<string>): nat {
    if lines == [] then 0
    else ResultCount(lines[..|lines| - 1]) + if IsResult(Classify(lines[|lines| - 1])) then 1 else 0
  }

  /** The last number printed under a label, or 0. */
  function LastCount(lines: seq<string>, what: Label): nat {
    if lines == [] then 0
    else
      var last := Classify(lines[|lines| - 1]);
      if last.Summary? && last.what == what then last.count else LastCount(lines[..|lines| - 1], what)
  }

  function LastEngine(lines: seq<string>): string {
    if lines == [] then ""
    else
      var last := Classify(lines[|lines| - 1]);
      if last.Engine? then last.version else LastEngine(lines[..|lines| - 1])
  }

  /** The progress reports of a stream: one per scanned file, with the totals at that moment. */
  function ProgressOf(lines: seq<string>): seq<(nat, nat)> {
    if lines == [] then []
    else
      var front := ProgressOf(lines[..|lines| - 1]);
      if IsResult(Classify(lines[|lines| - 1])) then front + [(ResultCount(lines), |FoundIn(lines)|)] else front
  }

  lemma {:induction false} FindingsAreResults(lines: seq<string>)
    ensures |FoundIn(lines)| <= ResultCount(lines)
  {
    if lines != [] {
      FindingsAreResults(lines[..|lines| - 1]);
    }
  }

  /** Reports count 1, 2, 3, ..., infected files never outnumber scanned ones and never decrease. */
  predicate CountsUp(p: seq<(nat, nat)>) {
    && (forall k :: 0 <= k < |p| ==> p[k].0 == k + 1 && p[k].1 <= k + 1)
    && (forall j, k :: 0 <= j < k < |p| ==> p[j].1 <= p[k].1)
  }

  function InfectedSoFar(p: seq<(nat, nat)>): nat {
    if p == [] then 0 else p[|p| - 1].1
  }

  lemma StreamStep(lines: seq<string>, line: string)
    ensures FoundIn(lines + [line]) ==
            if Classify(line).Found? then FoundIn(lines) + [Classify(line).finding] else FoundIn(lines)
    ensures ResultCount(lines + [line]) == ResultCount(lines) + if IsResult(Classify(line)) then 1 else 0
    ensures ProgressOf(lines + [line]) ==
            if IsResult(Classify(line)) then ProgressOf(lines) + [(ResultCount(lines + [line]), |FoundIn(lines + [line])|)]
            else ProgressOf(lines)
  {
    assert (lines + [line])[..|lines|] == lines;
  }

  /** The reports of a stream count up to its totals. */
  predicate ProgressFits(lines: seq<string>) {
    && CountsUp(ProgressOf(lines)) && |ProgressOf(lines)| == ResultCount(lines)
    && InfectedSoFar(ProgressOf(lines)) == |FoundIn(lines)|
  }

  lemma ProgressStep(lines: seq<string>, line: string)
    requires ProgressFits(lines)
    ensures ProgressFits(lines + [line])
  {
    var longer := lines + [line];
    StreamStep(lines, line);
    FindingsAreResults(longer);
    if IsResult(Classify(line)) {
      CountsUpExtends(ProgressOf(lines), |FoundIn(longer)|);
    }
  }

  /** Progress counts up without gaps, and the last report agrees with the totals of the stream. */
  lemma {:induction false} ProgressCountsUp(lines: seq<string>)
    ensures ProgressFits(lines)
  {
    if lines != [] {
      var front, last := lines[..|lines| - 1], lines[|lines| - 1];
      assert lines == front + [last];
      ProgressCountsUp(front);
      ProgressStep(front, last);
    }
  }

  lemma CountsUpExtends(p: seq<(nat, nat)>, infected: nat)
    requires CountsUp(p)
    ensures InfectedSoFar(p) <= infected <= |p| + 1 ==> CountsUp(p + [(|p| + 1, infected)])
    ensures InfectedSoFar(p + [(|p| + 1, infected)]) == infected
  {
  }

  function InfectedOf(reports: seq<Report>): seq<Finding> {
    if reports == [] then []
    else
      var front, last := InfectedOf(reports[..|reports| - 1]), reports[|reports| - 1];
      if last.Infected? then front + [last.finding] else front
  }

  // ------------------------------------------------------ what a list of files prints

  /** What the scanner writes: one line after another, unless a name holds a newline. */
  function Output(reports: seq<Report>): string {
    if reports == [] then ""
    else Output(reports[..|reports| - 1]) + Printed(reports[|reports| - 1]) + ['\n']
  }

  /** The lines the reader hands on. */
  function Delivered(reports: seq<Report>): seq<string> {
    if reports == [] then []
    else Delivered(reports[..|reports| - 1]) + Split(Printed(reports[|reports| - 1]), '\n')
  }

  lemma {:induction false} DeliveredIsOutput(reports: seq<Report>)
    ensures Split(Output(reports), '\n') == Delivered(reports) + [""]
  {
    if reports == [] {
      assert Delivered(reports) + [""] == [""];
    } else {
      var n := |reports| - 1;
      var front, printed := Output(reports[..n]), Printed(reports[n]);
      DeliveredIsOutput(reports[..n]);
      SplitOfConcat(front + printed, '\n', "");
      assert Output(reports) == (front + printed) + ['\n'] + "";
      assert Split("", '\n') == [""];
      EndOfOutput(reports[..n], printed);
    }
  }

  /** A text that ends with a newline goes on with a new line. */
  lemma EndOfOutput(reports: seq<Report>, printed: string)
    requires Split(Output(reports), '\n') == Delivered(reports) + [""]
    ensures Split(Output(reports) + printed, '\n') == Delivered(reports) + Split(printed, '\n')
  {
    if reports == [] {
      assert Output(reports) + printed == printed;
      assert Delivered(reports) + Split(printed, '\n') == Split(printed, '\n');
    } else {
      var n := |reports| - 1;
      var body := Output(reports[..n]) + Printed(reports[n]);
      assert Output(reports) == body + ['\n'] + "" && Output(reports) + printed == body + ['\n'] + printed;
      SplitOfConcat(body, '\n', "");
      SplitOfConcat(body, '\n', printed);
      assert Split("", '\n') == [""];
      assert Split(body, '\n') == (Split(body, '\n') + [""])[..|Split(body, '\n')|] == Delivered(reports);
    }
  }

  /**
   A report that can be read back: a readable finding; or a healthy file in whose name no line but
   the last looks like a report of its own.
   */
  predicate Printable(r: Report) {
    match r
    case Infected(f) => Readable(f)
    case Healthy(path) => Quiet(Split(path, '\n')[..|Split(path, '\n')| - 1])
  }

  predicate AllPrintable(reports: seq<Report>) {
    forall i :: 0 <= i < |reports| ==> Printable(reports[i])
  }

  /** No line looks like the report of a file. */
  predicate Quiet(lines: seq<string>) {
    forall i :: 0 <= i < |lines| ==> !IsResult(Classify(lines[i]))
  }

  lemma {:induction false} StreamInTwo(a: seq<string>, b: seq<string>)
    ensures FoundIn(a + b) == FoundIn(a) + FoundIn(b)
    ensures ResultCount(a + b) == ResultCount(a) + ResultCount(b)
  {
    if b == [] {
      assert a + b == a && FoundIn(a) + [] == FoundIn(a);
    } else {
      var front, last := b[..|b| - 1], b[|b| - 1];
      assert a + b == (a + front) + [last] && b == front + [last];
      StreamInTwo(a, front);
      StreamStep(a + front, last);
      StreamStep(front, last);
    }
  }

  lemma {:induction false} NoResults(lines: seq<string>)
    ensures ResultCount(lines) == 0 <==> Quiet(lines)
    ensures ResultCount(lines) == 0 ==> FoundIn(lines) == []
  {
    if lines != [] {
      var front, last := lines[..|lines| - 1], lines[|lines| - 1];
      assert lines == front + [last];
      NoResults(front);
    }
  }

  lemma OneLine(line: string)
    ensures FoundIn([line]) == if Classify(line).Found? then [Classify(line).finding] else []
    ensures ResultCount([line]) == if IsResult(Classify(line)) then 1 else 0
  {
    assert [] + [line] == [line];
    StreamStep([], line);
  }

  /** The lines of a healthy report: those of the name, and the verdict on the last. */
  lemma HealthyLines(path: string) returns (front: seq<string>, last: string)
    ensures Split(Printed(Healthy(path)), '\n') == front + [last] && Classify(last) == Passed
    ensures Printable(Healthy(path)) <==> Quiet(front)
  {
    var parts := Split(path, '\n');
    front, last := parts[..|parts| - 1], parts[|parts| - 1] + OK;
    SplitBeforeSuffix(path, '\n', OK);
    ClassifyOk(parts[|parts| - 1]);
  }

  /** A healthy file counts once for its last line, and once more for every line that looks like a report. */
  lemma HealthyCounts(path: string)
    ensures var lines := Split(Printed(Healthy(path)), '\n');
            && ResultCount(lines) >= 1 && (ResultCount(lines) == 1 <==> Printable(Healthy(path)))
            && (Printable(Healthy(path)) ==> FoundIn(lines) == [])
  {
    var front, last := HealthyLines(path);
    StreamStep(front, last);
    NoResults(front);
  }

  lemma ReadableCounts(f: Finding)
    requires Readable(f)
    ensures var lines := Split(Printed(Infected(f)), '\n'); ResultCount(lines) == 1 && FoundIn(lines) == [f]
  {
    NewlineInFoundLine(f);
    SplitWithoutSeparator(FoundLine(f), '\n');
    ClassifyFound(f);
    OneLine(FoundLine(f));
  }

  lemma ParsedIsReadable(line: string)
    requires Classify(line).Found?
    ensures Readable(Classify(line).finding)
  {
    var text := TrimRight(line, '\r');
    var body := text[..|text| - |FOUND|];
    var at := LastSeparator(body, |body|).value;
    var signature := body[at + 2..];
    forall j: nat | j < |signature| && IsSeparator(signature, j)
      ensures false
    {
      assert signature[j..j + 2] == body[at + 2 + j..at + 2 + j + 2];
      assert IsSeparator(body, at + 2 + j);
    }
    assert forall c :: c in body ==> c in text;
  }

  /** Whatever is found is readable. */
  lemma {:induction false} FoundIsReadable(lines: seq<string>)
    ensures forall f :: f in FoundIn(lines) ==> Readable(f)
  {
    if lines != [] {
      FoundIsReadable(lines[..|lines| - 1]);
      if Classify(lines[|lines| - 1]).Found? {
        ParsedIsReadable(lines[|lines| - 1]);
      }
    }
  }

  lemma {:induction false} InfectedIsIn(reports: seq<Report>, i: nat)
    requires i < |reports| && reports[i].Infected?
    ensures reports[i].finding in InfectedOf(reports)
  {
    if i < |reports| - 1 {
      InfectedIsIn(reports[..|reports| - 1], i);
    }
  }

  lemma OneReport(r: Report)
    requires r.Infected? ==> Readable(r.finding)
    ensures var lines := Split(Printed(r), '\n'); ResultCount(lines) >= 1 && (ResultCount(lines) == 1 <==> Printable(r))
  {
    match r
    case Infected(f) => ReadableCounts(f);
    case Healthy(path) => HealthyCounts(path);
  }

  predicate AllReadable(reports: seq<Report>) {
    forall i :: 0 <= i < |reports| && reports[i].Infected? ==> Readable(reports[i].finding)
  }

  /** With readable findings, every report counts at least once, and just once if all are printable. */
  lemma {:induction false} CountsAtLeast(reports: seq<Report>)
    requires AllReadable(reports)
    ensures ResultCount(Delivered(reports)) >= |reports|
    ensures ResultCount(Delivered(reports)) == |reports| ==> AllPrintable(reports)
  {
    if reports != [] {
      var front, last := reports[..|reports| - 1], reports[|reports| - 1];
      assert reports == front + [last];
      CountsAtLeast(front);
      StreamInTwo(Delivered(front), Split(Printed(last), '\n'));
      OneReport(last);
    }
  }

  lemma {:induction false} PrintableReadsBack(reports: seq<Report>)
    requires AllPrintable(reports)
    ensures FoundIn(Delivered(reports)) == InfectedOf(reports)
    ensures ResultCount(Delivered(reports)) == |reports|
  {
    if reports != [] {
      var front, last := reports[..|reports| - 1], reports[|reports| - 1];
      PrintableReadsBack(front);
      StreamInTwo(Delivered(front), Split(Printed(last), '\n'));
      match last
      case Infected(f) => ReadableCounts(f);
      case Healthy(path) => HealthyCounts(path);
    }
  }

  /**
   Reading what the scanner prints for a list of files gives back the infected ones in order and
   the number of files if and only if every report is printable.
   */
  lemma OutputRoundTrip(reports: seq<Report>)
    ensures FoundIn(Delivered(reports)) == InfectedOf(reports) && ResultCount(Delivered(reports)) == |reports| <==>
            AllPrintable(reports)
  {
    if AllPrintable(reports) {
      PrintableReadsBack(reports);
    } else if FoundIn(Delivered(reports)) == InfectedOf(reports) {
      FoundIsReadable(Delivered(reports));
      forall i | 0 <= i < |reports| && reports[i].Infected?
        ensures Readable(reports[i].finding)
      {
        InfectedIsIn(reports, i);
      }
      CountsAtLeast(reports);
    }
  }

  /** A healthy file whose name holds a finding line and a newline is reported as infected. */
  lemma NameReadsAsFinding(f: Finding, rest: string)
    requires Readable(f)
    ensures f in FoundIn(Split(Printed(Healthy(FoundLine(f) + ['\n'] + rest)), '\n'))
  {
    var line := FoundLine(f);
    NewlineInFoundLine(f);
    assert Printed(Healthy(line + ['\n'] + rest)) == line + ['\n'] + (rest + OK);
    SplitOfConcat(line, '\n', rest + OK);
    SplitWithoutSeparator(line, '\n');
    ClassifyFound(f);
    OneLine(line);
    StreamInTwo([line], Split(rest + OK, '\n'));
  }

  // ------------------------------------------------------------------- Scan

  datatype ScanResult = ScanResult(usedDaemon: bool, engineVersion: string, scanned: nat, infected: nat,
                                   findings: seq<Finding>, resultLines: nat)

  /** How the scanner process ended. */
  datatype Exit = Clean | Code(code: nat) | Broken

  datatype ScanError = NoPathsToScan | NotInstalled | ScannerFailed(partial: ScanResult)

  /** The result holds what the lines said. */
  predicate Reads(res: ScanResult, lines: seq<string>) {
    && res.findings == FoundIn(lines)
    && res.resultLines == ResultCount(lines)
    && res.infected == LastCount(lines, InfectedFiles)
    && res.scanned == LastCount(lines, ScannedFiles)
    && res.engineVersion == LastEngine(lines)
  }

  /** The totals after a finished scan: the summary's numbers where it gave any, else the line counts. */
  predicate Totals(res: ScanResult, lines: seq<string>) {
    && res.findings == FoundIn(lines)
    && res.engineVersion == LastEngine(lines)
    && res.infected == (if LastCount(lines, InfectedFiles) > 0 then LastCount(lines, InfectedFiles) else |FoundIn(lines)|)
    && res.scanned == (if LastCount(lines, ScannedFiles) > 0 then LastCount(lines, ScannedFiles) else ResultCount(lines))
  }

  /** A scan that found something never reports zero infected files, whatever its summary said. */
  lemma FindingsAreNeverLost(res: ScanResult, lines: seq<string>)
    requires Totals(res, lines)
    ensures res.findings != [] ==> res.infected > 0 && res.scanned > 0
    ensures LastCount(lines, InfectedFiles) == 0 && LastCount(lines, ScannedFiles) == 0 ==> res.infected <= res.scanned
  {
    FindingsAreResults(lines);
  }

  /** One scan: the result being filled in and what its callbacks were told. */
  class ScanRun {
    var res: ScanResult
    var findingLog: seq<Finding>
    var progressLog: seq<(nat, nat)>
    var lineLog: seq<string>

    constructor (usedDaemon: bool, echo: string)
      ensures res == ScanResult(usedDaemon, "", 0, 0, [], 0)
      ensures findingLog == [] && progressLog == [] && lineLog == [echo]
    {
      res := ScanResult(usedDaemon, "", 0, 0, [], 0);
      findingLog, progressLog, lineLog := [], [], [echo];
    }

    method ParseScanLine(raw: string, ghost seen: seq<string>)
      requires Reads(res, seen) && findingLog == FoundIn(seen)
      modifies this`res, this`findingLog
      ensures Reads(res, seen + [raw]) && findingLog == FoundIn(seen + [raw])
      ensures res.usedDaemon == old(res.usedDaemon)
      ensures res.resultLines == old(res.resultLines) <==> !IsResult(Classify(raw))
    {
      assert (seen + [raw])[..|seen|] == seen;
      var line := TrimRight(raw, '\r');
      var m := ParseFound(line);
      if m.Some? {
        res := res.(findings := res.findings + [m.value], resultLines := res.resultLines + 1);
        findingLog := findingLog + [m.value];
        return;
      }
      if HasSuffix(line, OK) {
        res := res.(resultLines := res.resultLines + 1);
        return;
      }
      var summary := ParseSummary(line);
      if summary.Some? {
        var n := summary.value.1;
        match summary.value.0 {
          case InfectedFiles => res := res.(infected := n);
          case ScannedFiles => res := res.(scanned := n);
          case TotalErrors =>
        }
        return;
      }
      var engine := ParseEngine(line);
      if engine.Some? {
        res := res.(engineVersion := engine.value);
      }
    }

    /** The result and the logs are what the lines say. */
    ghost predicate Consumed(seen: seq<string>)
      reads this
    {
      Reads(res, seen) && findingLog == FoundIn(seen) && progressLog == ProgressOf(seen)
    }

    /** The streaming callback of Scan. */
    method Consume(line: string, ghost seen: seq<string>)
      requires Consumed(seen)
      modifies this
      ensures Consumed(seen + [line]) && res.usedDaemon == old(res.usedDaemon)
      ensures lineLog == old(lineLog) + [line]
    {
      StreamStep(seen, line);
      lineLog := lineLog + [line];
      var before := res.resultLines;
      ParseScanLine(line, seen);
      if res.resultLines != before {
        progressLog := progressLog + [(res.resultLines, |res.findings|)];
      }
    }

    method ConsumeAll(lines: seq<string>)
      requires Consumed([])
      modifies this
      ensures Consumed(lines) && res.usedDaemon == old(res.usedDaemon)
      ensures lineLog == old(lineLog) + lines
    {
      for i := 0 to |lines|
        invariant Consumed(lines[..i]) && res.usedDaemon == old(res.usedDaemon)
        invariant lineLog == old(lineLog) + lines[..i]
      {
        assert lines[..i] + [lines[i]] == lines[..i + 1];
        Consume(lines[i], lines[..i]);
      }
      assert lines[..|lines|] == lines;
    }
  }

  /** Runs a scan whose scanner prints `lines` and ends with `exit`; exit code 1 only says "infected". */
  method Scan(paths: seq<string>, haveScanner: bool, usedDaemon: bool, echo: string, lines: seq<string>, exit: Exit)
    returns (r: Result<ScanResult, ScanError>, findings: seq<Finding>, progress: seq<(nat, nat)>, shown: seq<string>)
    ensures paths == [] ==> r == Err(NoPathsToScan)
    ensures paths != [] && !haveScanner ==> r == Err(NotInstalled)
    ensures paths == [] || !haveScanner ==> findings == [] && progress == [] && shown == []
    ensures paths != [] && haveScanner ==>
              && findings == FoundIn(lines) && progress == ProgressOf(lines) && shown == [echo] + lines
              && (r.Ok? <==> exit == Clean || exit == Code(1))
              && (r.Ok? ==> Totals(r.value, lines) && r.value.usedDaemon == usedDaemon)
              && (r.Err? ==> r.error.ScannerFailed? && Reads(r.error.partial, lines))
  {
    findings, progress, shown := [], [], [];
    if |paths| == 0 {
      r := Err(NoPathsToScan);
      return;
    }
    if !haveScanner {
      r := Err(NotInstalled);
      return;
    }
    var run := new ScanRun(usedDaemon, echo);
    run.ConsumeAll(lines);
    findings, progress, shown := run.findingLog, run.progressLog, run.lineLog;
    var res, failed := run.res, exit != Clean;
    if exit.Code? && exit.code == 1 {
      failed := false;
    }
    if failed {
      r := Err(ScannerFailed(res));
      return;
    }
    if res.infected == 0 && |res.findings| > 0 {
      res := res.(infected := |res.findings|);
    }
    if res.scanned == 0 {
      res := res.(scanned := res.resultLines);
    }
    r := Ok(res);
  }
}
