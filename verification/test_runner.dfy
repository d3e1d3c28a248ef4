/** The test runner (runner/test-runner.js): it runs Playwright over the
    generated spec files, turns Playwright's line-oriented console output
    into live progress events while the run is going, and leaves a results
    file behind, falling back to counts scraped from the console when the
    JSON reporter wrote nothing. */
module TestRunner {
  import opened Wrappers
  import opened Text
  import opened Seqs
  import opened Matcher
  import opened Json

  // ---------------------------------------------------------------------
  // ANSI colour codes
  // ---------------------------------------------------------------------

  const Escape: char := '\U{1B}'

  predicate IsAnsiParam(c: char) {
    IsDigit(c) || c == ';'
  }

  predicate IsAsciiLetter(c: char) {
    IsAsciiLower(c) || IsAsciiUpper(c)
  }

  /** Length of the control sequence `ESC [ params letter` that `s` starts
      with, if it starts with one. */
  function AnsiLength(s: string): (n: Option<nat>)
    ensures n.Some? ==> 3 <= n.value <= |s| && s[0] == Escape
  {
    if |s| >= 2 && s[0] == Escape && s[1] == '[' then
      var e := RunEnd(s, 2, IsAnsiParam);
      if e < |s| && IsAsciiLetter(s[e]) then Some(e + 1) else None
    else None
  }

  /** `stripAnsi`: every control sequence removed, scanning left to right;
      everything else is kept in order, so text without an escape
      character comes out unchanged. */
  function StripAnsi(s: string): (r: string)
    decreases |s|
    ensures IsSubsequence(r, s)
    ensures Escape !in s ==> r == s
  {
    if |s| == 0 then ""
    else match AnsiLength(s)
      case Some(n) =>
        var r := StripAnsi(s[n..]);
        SubsequenceOfSuffix(r, s, n);
        r
      case None =>
        var rest := StripAnsi(s[1..]);
        var r := [s[0]] + rest;
        assert r[1..] == rest;
        r
  }

  /** A colour code is dropped and nothing around it is touched. */
  lemma StripAnsiDropsCode(params: string, letter: char, rest: string)
    requires forall i :: 0 <= i < |params| ==> IsAnsiParam(params[i])
    requires IsAsciiLetter(letter)
    ensures StripAnsi([Escape, '['] + params + [letter] + rest) == StripAnsi(rest)
  {
    var s := [Escape, '['] + params + [letter] + rest;
    var e := RunEnd(s, 2, IsAnsiParam);
    assert s[2 + |params|] == letter;
    assert forall i :: 2 <= i < 2 + |params| ==> s[i] == params[i - 2];
    assert e == 2 + |params|;
    assert AnsiLength(s) == Some(3 + |params|);
    assert s[3 + |params|..] == rest;
  }

  // ---------------------------------------------------------------------
  // Line buffering of the output stream
  // ---------------------------------------------------------------------

  /** The complete lines seen so far and the unterminated remainder. */
  datatype Lines = Lines(complete: seq<string>, pending: string)

  /** `s.split('\n')` with the last piece set aside as the remainder. */
  function LinesOf(s: string): (r: Lines)
    ensures Split(s, "\n") == r.complete + [r.pending]
    ensures Join(r.complete + [r.pending], "\n") == s
    ensures forall l :: l in r.complete ==> !Contains(l, "\n")
    ensures !Contains(r.pending, "\n")
  {
    var parts := Split(s, "\n");
    assert parts == parts[..|parts| - 1] + [parts[|parts| - 1]];
    Lines(parts[..|parts| - 1], parts[|parts| - 1])
  }

  /** One `data` event: the chunk is appended to the remainder, and what
      now ends in a line feed becomes complete lines. */
  function Feed(buffer: Lines, data: string): (r: Lines)
    ensures |buffer.complete| <= |r.complete|
    ensures r.complete[..|buffer.complete|] == buffer.complete
    ensures Join(r.complete[|buffer.complete|..] + [r.pending], "\n") == buffer.pending + data
    ensures !Contains(r.pending, "\n")
  {
    var next := LinesOf(buffer.pending + data);
    var r := Lines(buffer.complete + next.complete, next.pending);
    assert r.complete[|buffer.complete|..] == next.complete;
    r
  }

  /** The text of a stream delivered in chunks. */
  function Concat(chunks: seq<string>): string {
    if |chunks| == 0 then "" else Concat(chunks[..|chunks| - 1]) + chunks[|chunks| - 1]
  }

  /** The buffer after every chunk of the stream has been fed. */
  function Buffer(chunks: seq<string>): Lines {
    if |chunks| == 0 then Lines([], "")
    else Feed(Buffer(chunks[..|chunks| - 1]), chunks[|chunks| - 1])
  }

  /** Splitting text that starts with a line ends that line at its line
      feed. */
  lemma SplitAfterLine(line: string, sep: string, rest: string)
    requires |sep| == 1 && !Contains(line, sep)
    ensures Split(line + sep + rest, sep) == [line] + Split(rest, sep)
  {
    var s := line + sep + rest;
    assert s[|line|..|line| + 1] == sep;
    forall k: nat | k < |line|
      ensures !OccursAt(s, sep, k)
    {
      if OccursAt(s, sep, k) {
        assert line[k..k + 1] == s[k..k + 1];
        OccurrenceContains(line, sep, k);
      }
    }
    assert OccursAt(s, sep, |line|);
    match IndexOfFrom(s, sep, 0)
    case None =>
    case Some(v) =>
      assert v == |line|;
    assert s[..|line|] == line && s[|line| + 1..] == rest;
  }

  /** Re-splitting the joined lines plus more text gives the same lines
      followed by the pieces of the remainder plus that text. */
  lemma {:induction false} SplitJoined(lines: seq<string>, sep: string, pending: string, more: string)
    requires |sep| == 1
    requires forall l :: l in lines ==> !Contains(l, sep)
    ensures Split(Join(lines + [pending], sep) + more, sep)
         == lines + Split(pending + more, sep)
    decreases |lines|
  {
    if |lines| > 0 {
      var x := Join(lines[1..] + [pending], sep) + more;
      JoinCons(lines, sep, pending, more);
      SplitAfterLine(lines[0], sep, x);
      SplitJoined(lines[1..], sep, pending, more);
      ConsTail(lines, Split(pending + more, sep));
    }
  }

  lemma JoinCons(lines: seq<string>, sep: string, pending: string, more: string)
    requires |lines| > 0
    ensures Join(lines + [pending], sep) + more == lines[0] + sep + (Join(lines[1..] + [pending], sep) + more)
  {
    var all := lines + [pending];
    assert all[0] == lines[0] && all[1..] == lines[1..] + [pending];
  }

  /** However the output is cut into chunks, the buffer holds the lines of
      the whole text seen so far and its unterminated remainder. */
  lemma {:induction false} BufferHoldsLinesOf(chunks: seq<string>)
    ensures Buffer(chunks) == LinesOf(Concat(chunks))
    decreases |chunks|
  {
    if |chunks| > 0 {
      var init := chunks[..|chunks| - 1];
      var data := chunks[|chunks| - 1];
      BufferHoldsLinesOf(init);
      var b := Buffer(init);
      SplitJoined(b.complete, "\n", b.pending, data);
      var next := LinesOf(b.pending + data);
      var whole := LinesOf(Concat(chunks));
      assert whole.complete + [whole.pending] == b.complete + (next.complete + [next.pending]);
      AppendSnoc(b.complete, next.complete, next.pending);
      SnocInjective(whole.complete, whole.pending, b.complete + next.complete, next.pending);
    }
  }

  // ---------------------------------------------------------------------
  // Progress events
  // ---------------------------------------------------------------------

  datatype Status = Passed | Failed

  /** What `onTestResult` receives: the planned test count, or one test's
      outcome. */
  datatype Event =
    | TotalEvent(total: nat, workers: nat)
    | ResultEvent(name: string, category: string, status: Status, duration: nat)

  /** The three capture groups of a result line: file, title, milliseconds. */
  datatype Captures = Captures(file: string, title: string, ms: string)

  /** The two capture groups of the "Running" line. */
  datatype Planned = Planned(tests: string, workers: string)

  predicate IsOpener(c: char) {
    c == '[' || c == '"'
  }

  /** `[^:\]]` */
  predicate IsFileChar(c: char) {
    c != ':' && c != ']'
  }

  /** `[:\d\]]` */
  predicate IsLocationChar(c: char) {
    c == ':' || IsDigit(c) || c == ']'
  }

  /** `.` */
  predicate IsNotLineTerminator(c: char) {
    !IsLineTerminator(c)
  }

  predicate IsLetterS(c: char) {
    LowerChar(c) == 's'
  }

  /** `[✓✔]` */
  predicate IsPassMark(c: char) {
    c == '\U{2713}' || c == '\U{2714}'
  }

  /** `[✘✗×]` */
  predicate IsFailMark(c: char) {
    c == '\U{2718}' || c == '\U{2717}' || c == '\U{D7}'
  }

  /** The separator Playwright puts between a test's file, suites and
      title. */
  const Chevron: string := "\U{203A}"

  /** `' › '` */
  const TitleSeparator: string := " \U{203A} "

  /** The shared tail of the three result patterns, from position `p`:
      `\s+\d+\s+[\["]?([^:\]]+(?:\.spec\.js)?)[:\d\]]*\s+›\s+(.+?)\s+\((\d+)ms\)`.
      Each piece is one function below, which hands the positions it can
      reach to the next piece; the capture boundaries travel along. */
  function ResultAfter(line: string, p: nat): Option<Captures> {
    Greedy(line, p, IsJsSpace, 1, p1 => ResultIndex(line, p1))
  }

  /** `\d+\s+` */
  function ResultIndex(line: string, p: nat): Option<Captures> {
    Greedy(line, p, IsDigit, 1, p1 => ResultIndexGap(line, p1))
  }

  function ResultIndexGap(line: string, p: nat): Option<Captures> {
    Greedy(line, p, IsJsSpace, 1, p1 => ResultOpener(line, p1))
  }

  /** `[\["]?` */
  function ResultOpener(line: string, p: nat): Option<Captures> {
    Opt(line, p, IsOpener, fileStart => ResultFile(line, fileStart))
  }

  /** `([^:\]]+(?:\.spec\.js)?)`: the file group. */
  function ResultFile(line: string, fileStart: nat): Option<Captures> {
    Greedy(line, fileStart, IsFileChar, 1, p1 => ResultSpecSuffix(line, fileStart, p1))
  }

  function ResultSpecSuffix(line: string, fileStart: nat, p: nat): Option<Captures> {
    OptLit(line, p, ".spec.js", fileEnd => ResultLocation(line, fileStart, fileEnd))
  }

  /** `[:\d\]]*\s+›\s+` */
  function ResultLocation(line: string, fileStart: nat, fileEnd: nat): Option<Captures> {
    Greedy(line, fileEnd, IsLocationChar, 0, p1 => ResultLocationGap(line, fileStart, fileEnd, p1))
  }

  function ResultLocationGap(line: string, fileStart: nat, fileEnd: nat, p: nat): Option<Captures> {
    Greedy(line, p, IsJsSpace, 1, p1 => ResultChevron(line, fileStart, fileEnd, p1))
  }

  function ResultChevron(line: string, fileStart: nat, fileEnd: nat, p: nat): Option<Captures> {
    Lit(line, p, Chevron, p1 => ResultChevronGap(line, fileStart, fileEnd, p1))
  }

  function ResultChevronGap(line: string, fileStart: nat, fileEnd: nat, p: nat): Option<Captures> {
    Greedy(line, p, IsJsSpace, 1, titleStart => ResultTitle(line, fileStart, fileEnd, titleStart))
  }

  /** `(.+?)`: the title group, shortest first. */
  function ResultTitle(line: string, fileStart: nat, fileEnd: nat, titleStart: nat): Option<Captures> {
    Lazy(line, titleStart, IsNotLineTerminator, 1,
         titleEnd => ResultTitleGap(line, Slice(line, fileStart, fileEnd), Slice(line, titleStart, titleEnd), titleEnd))
  }

  /** `\s+\(` */
  function ResultTitleGap(line: string, file: string, title: string, p: nat): Option<Captures> {
    Greedy(line, p, IsJsSpace, 1, p1 => Lit(line, p1, "(", msStart => ResultMs(line, file, title, msStart)))
  }

  /** `(\d+)ms\)`: the duration group. */
  function ResultMs(line: string, file: string, title: string, msStart: nat): Option<Captures> {
    Greedy(line, msStart, IsDigit, 1,
           msEnd => Lit(line, msEnd, "ms)", _ => Some(Captures(file, title, Slice(line, msStart, msEnd)))))
  }

  /** A result pattern that starts with one of the `mark` characters. */
  function MarkedAt(line: string, s: nat, mark: char -> bool): Option<Captures> {
    if s < |line| && mark(line[s]) then ResultAfter(line, s + 1) else None
  }

  /** `/Running (\d+) tests? using (\d+) workers?/i` at position `s`; the
      optional trailing `s` never decides whether the line matches. */
  function RunningAt(line: string, s: nat): Option<Planned> {
    LitCI(line, s, "running ", testsStart => RunningTests(line, testsStart))
  }

  /** `(\d+) tests? using ` */
  function RunningTests(line: string, testsStart: nat): Option<Planned> {
    Greedy(line, testsStart, IsDigit, 1,
           testsEnd => LitCI(line, testsEnd, " test", p => RunningUsing(line, Slice(line, testsStart, testsEnd), p)))
  }

  function RunningUsing(line: string, tests: string, p: nat): Option<Planned> {
    Opt(line, p, IsLetterS, p1 => LitCI(line, p1, " using ", workersStart => RunningWorkers(line, tests, workersStart)))
  }

  /** `(\d+) worker` */
  function RunningWorkers(line: string, tests: string, workersStart: nat): Option<Planned> {
    Greedy(line, workersStart, IsDigit, 1,
           workersEnd => LitCI(line, workersEnd, " worker", _ => Some(Planned(tests, Slice(line, workersStart, workersEnd)))))
  }

  function RunningMatch(line: string): Option<Planned> {
    SearchFrom(|line|, 0, s => RunningAt(line, s))
  }

  function PassMatch(line: string): Option<Captures> {
    SearchFrom(|line|, 0, s => MarkedAt(line, s, IsPassMark))
  }

  function FailMatch(line: string): Option<Captures> {
    SearchFrom(|line|, 0, s => MarkedAt(line, s, IsFailMark))
  }

  function GenericMatch(line: string): Option<Captures> {
    SearchFrom(|line|, 0, s => ResultAfter(line, s))
  }

  /** `/[✘✗×]/.test(line)` */
  predicate HasFailMark(line: string) {
    exists i :: 0 <= i < |line| && IsFailMark(line[i])
  }

  /** A failure match needs a failure mark in the line. */
  lemma FailMatchHasMark(line: string)
    requires FailMatch(line).Some?
    ensures HasFailMark(line)
  {
    var i :| 0 <= i <= |line| && MarkedAt(line, i, IsFailMark) == FailMatch(line);
  }

  /** The test's name: the last `' › '` segment of the trimmed title, or the
      whole title when that segment is empty. */
  function TestName(fullName: string): (name: string)
    ensures EndsWith(fullName, name)
    ensures name == fullName || !Contains(name, TitleSeparator)
    ensures var parts := Split(fullName, TitleSeparator);
            name == if parts[|parts| - 1] != "" then parts[|parts| - 1] else fullName
  {
    var parts := Split(fullName, TitleSeparator);
    JoinEndsWithLast(parts, TitleSeparator);
    if parts[|parts| - 1] != "" then parts[|parts| - 1] else fullName
  }

  lemma {:induction false} JoinEndsWithLast(parts: seq<string>, sep: string)
    requires |parts| > 0
    ensures EndsWith(Join(parts, sep), parts[|parts| - 1])
    decreases |parts|
  {
    if |parts| > 1 {
      JoinEndsWithLast(parts[1..], sep);
      var rest := Join(parts[1..], sep);
      var whole := parts[0] + sep + rest;
      assert whole[|whole| - |rest|..] == rest;
    }
  }

  /** The mark inside the title separator. */
  const TitleMark: char := '\U{203A}'

  /** A title part without the mark is cut off at the separator that
      follows it. */
  lemma TitleAfterPart(part: string, rest: string)
    requires TitleMark !in part
    ensures Split(part + TitleSeparator + rest, TitleSeparator) == [part] + Split(rest, TitleSeparator)
  {
    var s := part + TitleSeparator + rest;
    var n := |part|;
    assert s[n..n + 3] == TitleSeparator && TitleSeparator[1] == TitleMark;
    forall k: nat | k < n
      ensures !OccursAt(s, TitleSeparator, k)
    {
      assert s[k..k + 3][1] == s[k + 1];
      if k + 1 < n {
        assert s[k + 1] == part[k + 1];
      }
    }
    assert OccursAt(s, TitleSeparator, n);
    match IndexOfFrom(s, TitleSeparator, 0)
    case None =>
    case Some(v) =>
      assert v == n;
    assert s[..n] == part && s[n + 3..] == rest;
  }

  /** Splitting a title joined from parts without the mark gives the
      parts back. */
  lemma {:induction false} SplitTitle(parts: seq<string>)
    requires |parts| > 0
    requires forall i :: 0 <= i < |parts| ==> TitleMark !in parts[i]
    ensures Split(Join(parts, TitleSeparator), TitleSeparator) == parts
    decreases |parts|
  {
    if |parts| == 1 {
      MissingCharNotContained(parts[0], TitleSeparator, 1);
    } else {
      TitleAfterPart(parts[0], Join(parts[1..], TitleSeparator));
      SplitTitle(parts[1..]);
      assert parts == [parts[0]] + parts[1..];
    }
  }

  /** A test titled by its suites and a non-empty name without the mark is
      named by that name. */
  lemma TestNameOfTitle(suites: seq<string>, name: string)
    requires name != "" && TitleMark !in name
    requires forall i :: 0 <= i < |suites| ==> TitleMark !in suites[i]
    ensures TestName(Join(suites + [name], TitleSeparator)) == name
  {
    var parts := suites + [name];
    forall i | 0 <= i < |parts| ensures TitleMark !in parts[i] {
      if i < |suites| {
        assert parts[i] == suites[i];
      }
    }
    SplitTitle(parts);
    assert parts[|parts| - 1] == name;
  }

  function ResultOf(c: Captures, status: Status): Event {
    var fullName := Trim(c.title);
    ResultEvent(TestName(fullName), ExtractCategory(c.file, Split(fullName, TitleSeparator)),
                status, LeadingValue(c.ms))
  }

  /** `parseTestLine` on a line already stripped of colour codes and
      trimmed: the "Running" line announces the total; otherwise the pass
      pattern, the failure pattern and the unmarked pattern are tried in
      that order, and the unmarked one reports a failure exactly when the
      line holds a failure mark anywhere. */
  function ParseLine(line: string): (r: Option<Event>)
    ensures line == "" ==> r.None?
    ensures r.None? <==> line == "" || (RunningMatch(line).None? && PassMatch(line).None?
                                        && FailMatch(line).None? && GenericMatch(line).None?)
    ensures (r.Some? && r.value.TotalEvent?) <==> line != "" && RunningMatch(line).Some?
    ensures r.Some? && r.value.ResultEvent? ==>
              (r.value.status == Failed <==> PassMatch(line).None? && HasFailMark(line))
  {
    if line == "" then None
    else match RunningMatch(line)
      case Some(t) => Some(TotalEvent(LeadingValue(t.tests), LeadingValue(t.workers)))
      case None =>
        match PassMatch(line)
        case Some(m) => Some(ResultOf(m, Passed))
        case None =>
          match FailMatch(line)
          case Some(m) =>
            FailMatchHasMark(line);
            Some(ResultOf(m, Failed))
          case None =>
            match GenericMatch(line)
            case Some(m) => Some(ResultOf(m, if HasFailMark(line) then Failed else Passed))
            case None => None
  }

  /** The line as `parseTestLine` examines it. */
  function Clean(raw: string): string {
    Trim(StripAnsi(raw))
  }

  /** `parseTestLine`: at most one event per line, none for a blank line. */
  function ParseTestLine(raw: string): (r: Option<Event>)
    ensures Clean(raw) == "" ==> r.None?
    ensures (r.Some? && r.value.TotalEvent?) <==> Clean(raw) != "" && RunningMatch(Clean(raw)).Some?
  {
    ParseLine(Clean(raw))
  }

  /** A line that is blank as `trim` sees it yields no event, so the flush
      on close could parse the remainder unconditionally. */
  lemma BlankLineIgnored(raw: string)
    requires Trim(raw) == ""
    ensures ParseTestLine(raw).None?
  {
    TrimEmptyIff(raw);
  }

  // ---------------------------------------------------------------------
  // Categories
  // ---------------------------------------------------------------------

  const KnownCategories: seq<string> := ["pages", "apis", "security", "forms", "load"]

  /** The first of `cats` that occurs in `s`. */
  function FirstContained(s: string, cats: seq<string>): (r: Option<string>)
    ensures r.Some? ==> r.value in cats && Contains(s, r.value)
    ensures r.Some? ==> exists k :: 0 <= k < |cats| && cats[k] == r.value
                                    && forall j :: 0 <= j < k ==> !Contains(s, cats[j])
    ensures r.None? ==> forall c :: c in cats ==> !Contains(s, c)
  {
    if |cats| == 0 then None
    else if Contains(s, cats[0]) then Some(cats[0])
    else FirstContained(s, cats[1..])
  }

  predicate IsSlash(c: char) {
    c == '/' || c == '\\'
  }

  /** `/\.spec\.js.*` matched at `s`: the span it covers. */
  function SpecSuffixAt(t: string, s: nat): Option<(nat, nat)> {
    Lit(t, s, ".spec.js", p => ToLineEnd(t, s, p))
  }

  /** `.*` from `p`, closing the span that started at `s`. */
  function ToLineEnd(t: string, s: nat, p: nat): Option<(nat, nat)> {
    Greedy(t, p, IsNotLineTerminator, 0, e => Some((s, e)))
  }

  /** `/.*[\\/]/` matched at `s`: the span it covers. */
  function DirPrefixAt(t: string, s: nat): Option<(nat, nat)> {
    Greedy(t, s, IsNotLineTerminator, 0, p => SlashAt(t, s, p))
  }

  /** `[\\/]` at `p`, closing the span that started at `s`. */
  function SlashAt(t: string, s: nat, p: nat): Option<(nat, nat)> {
    if p < |t| && IsSlash(t[p]) then Some((s, p + 1)) else None
  }

  /** `t.replace(re, '')` given the first match of `re`. */
  function RemoveSpan(t: string, span: Option<(nat, nat)>): string {
    match span
    case None => t
    case Some((a, b)) => Slice(t, 0, a) + Slice(t, b, |t|)
  }

  /** The file name without its `.spec.js` suffix and its directory. */
  function FileBase(filename: string): string {
    var t := RemoveSpan(filename, SearchFrom(|filename|, 0, s => SpecSuffixAt(filename, s)));
    RemoveSpan(t, SearchFrom(|t|, 0, s => DirPrefixAt(t, s)))
  }

  /** `extractCategory`: a known category named by the file; else, when the
      title has a suite, the first known category its lower-cased name
      contains; else the file's base name, or "other" when that is
      empty. */
  function ExtractCategory(filename: string, parts: seq<string>): (r: string)
    ensures r != ""
    ensures r in KnownCategories || r == FileBase(filename) || r == "other"
    ensures FileBase(filename) in KnownCategories ==> r == FileBase(filename)
    ensures FileBase(filename) !in KnownCategories && |parts| > 1
            && FirstContained(Lower(parts[0]), KnownCategories).Some? ==>
              r in KnownCategories && Contains(Lower(parts[0]), r)
              && r == FirstContained(Lower(parts[0]), KnownCategories).value
    ensures FileBase(filename) !in KnownCategories
            && (|parts| <= 1 || FirstContained(Lower(parts[0]), KnownCategories).None?) ==>
              r == (if FileBase(filename) != "" then FileBase(filename) else "other")
    ensures |parts| <= 1 ==> r !in KnownCategories || r == FileBase(filename)
  {
    var base := FileBase(filename);
    if base in KnownCategories then base
    else
      var fromSuite := if |parts| > 1 then FirstContained(Lower(parts[0]), KnownCategories) else None;
      if fromSuite.Some? then fromSuite.value
      else if base != "" then base
      else "other"
  }

  /** `name.spec.js:line` names its category `name`. */
  lemma FileBaseOfSpecFile(name: string, rest: string)
    requires forall i :: 0 <= i < |name| ==> name[i] != '.' && !IsSlash(name[i]) && !IsLineTerminator(name[i])
    requires forall i :: 0 <= i < |rest| ==> !IsLineTerminator(rest[i])
    ensures FileBase(name + ".spec.js" + rest) == name
  {
    var t := name + ".spec.js" + rest;
    SpecSuffixFound(name, rest);
    var stripped := RemoveSpan(t, Some((|name|, |t|)));
    assert stripped == name by {
      assert t[..|name|] == name;
      assert Slice(t, |t|, |t|) == "";
    }
    NoDirectory(name);
  }

  /** The suffix pattern first matches where `.spec.js` starts and runs to
      the end of the line. */
  lemma SpecSuffixFound(name: string, rest: string)
    requires forall i :: 0 <= i < |name| ==> name[i] != '.'
    requires forall i :: 0 <= i < |rest| ==> !IsLineTerminator(rest[i])
    ensures var t := name + ".spec.js" + rest;
            SearchFrom(|t|, 0, s => SpecSuffixAt(t, s)) == Some((|name|, |t|))
  {
    var t := name + ".spec.js" + rest;
    var at := (s: nat) => SpecSuffixAt(t, s);
    forall j | 0 <= j < |name|
      ensures at(j).None?
    {
      NoSuffixInName(name, rest, j);
    }
    SuffixAfterName(name, rest);
    SearchFindsFirst(|t|, at, |name|);
  }

  lemma NoSuffixInName(name: string, rest: string, j: nat)
    requires j < |name| && name[j] != '.'
    ensures SpecSuffixAt(name + ".spec.js" + rest, j).None?
  {
    var t := name + ".spec.js" + rest;
    assert t[j] == name[j];
  }

  lemma SuffixAfterName(name: string, rest: string)
    requires forall i :: 0 <= i < |rest| ==> !IsLineTerminator(rest[i])
    ensures var t := name + ".spec.js" + rest;
            SpecSuffixAt(t, |name|) == Some((|name|, |t|))
  {
    var t := name + ".spec.js" + rest;
    assert t[|name|..|name| + 8] == ".spec.js";
    assert forall i :: |name| + 8 <= i < |t| ==> t[i] == rest[i - |name| - 8];
    assert RunEnd(t, |name| + 8, IsNotLineTerminator) == |t|;
  }

  /** Without a slash the directory pattern matches nowhere. */
  lemma NoDirectory(name: string)
    requires forall i :: 0 <= i < |name| ==> !IsSlash(name[i])
    ensures SearchFrom(|name|, 0, s => DirPrefixAt(name, s)).None?
  {
    forall s: nat, p: nat
      ensures SlashAt(name, s, p).None?
    {
    }
  }

  // ---------------------------------------------------------------------
  // The whole stream
  // ---------------------------------------------------------------------

  /** Each line parsed in order; lines without an event contribute
      nothing. */
  function ParsedLines(lines: seq<string>): (events: seq<Event>)
    ensures |events| <= |lines|
  {
    FilterMap(lines, ParseTestLine)
  }

  /** The events of a run: complete lines as each chunk arrives, then the
      remainder on close when it is not blank. */
  function StreamEvents(chunks: seq<string>): seq<Event> {
    var b := Buffer(chunks);
    var last := ParseTestLine(b.pending);
    ParsedLines(b.complete) + (if Trim(b.pending) != "" && last.Some? then [last.value] else [])
  }

  /** Every line of the whole output is parsed exactly once, in order, no
      matter how the output was cut into chunks. */
  lemma StreamEventsAreLineEvents(chunks: seq<string>)
    ensures StreamEvents(chunks) == ParsedLines(Split(Concat(chunks), "\n"))
  {
    BufferHoldsLinesOf(chunks);
    var b := Buffer(chunks);
    FilterMapSnoc(b.complete, b.pending, ParseTestLine);
    if Trim(b.pending) == "" {
      BlankLineIgnored(b.pending);
    }
  }

  // ---------------------------------------------------------------------
  // Fallback counts
  // ---------------------------------------------------------------------

  /** The summary written when Playwright produced no JSON report. */
  datatype FallbackStats = FallbackStats(expected: nat, unexpected: nat, skipped: nat)

  /** The fallback object as it is written to the results file. */
  function FallbackJson(stats: FallbackStats): Json {
    JObj(map["suites" := JArr([]),
             "stats" := JObj(map["expected" := JNum(stats.expected),
                                 "unexpected" := JNum(stats.unexpected),
                                 "skipped" := JNum(stats.skipped)]),
             "_fallback" := JBool(true)])
  }

  /** `output.match(/(\d+) word/)`: the digits of the first match. */
  function CountMatch(output: string, word: string): Option<string> {
    SearchFrom(|output|, 0, s => CountAt(output, word, s))
  }

  /** `(\d+) word` at `s`. */
  function CountAt(output: string, word: string, s: nat): Option<string> {
    Greedy(output, s, IsDigit, 1, p => CountWord(output, word, s, p))
  }

  function CountWord(output: string, word: string, s: nat, p: nat): Option<string> {
    Lit(output, p, word, _ => Some(Slice(output, s, p)))
  }

  /** The count in front of `word`, or 0 when there is none. */
  function CountBefore(output: string, word: string): nat {
    match CountMatch(output, word)
    case None => 0
    case Some(d) => LeadingValue(d)
  }

  /** `parseFallbackOutput` */
  function ParseFallbackOutput(output: string): FallbackStats {
    FallbackStats(CountBefore(output, " passed"), CountBefore(output, " failed"), CountBefore(output, " skipped"))
  }

  /** A number printed before `word`, after text without digits, is the
      number read back. */
  lemma CountRoundTrip(prefix: string, n: nat, word: string, suffix: string)
    requires forall i :: 0 <= i < |prefix| ==> !IsDigit(prefix[i])
    requires |word| > 0 && !IsDigit(word[0])
    ensures CountBefore(prefix + NatToString(n) + word + suffix, word) == n
  {
    var d := NatToString(n);
    var out := prefix + d + word + suffix;
    var at := (s: nat) => CountAt(out, word, s);
    forall j | 0 <= j < |prefix|
      ensures at(j).None?
    {
      assert out[j] == prefix[j];
      assert RunEnd(out, j, IsDigit) == j;
    }
    var s := |prefix|;
    var e := RunEnd(out, s, IsDigit);
    assert forall i :: s <= i < s + |d| ==> out[i] == d[i - s];
    assert out[s + |d|] == word[0];
    assert e == s + |d|;
    assert out[e..e + |word|] == word;
    assert out[s..e] == d;
    assert at(s) == Some(d);
    SearchFindsFirst(|out|, at, s);
  }

  /** Each of the three fallback counts is the number printed before its
      word, when no digit comes earlier in the output. */
  lemma FallbackCounts(prefix: string, n: nat, suffix: string)
    requires forall i :: 0 <= i < |prefix| ==> !IsDigit(prefix[i])
    ensures ParseFallbackOutput(prefix + NatToString(n) + " passed" + suffix).expected == n
    ensures ParseFallbackOutput(prefix + NatToString(n) + " failed" + suffix).unexpected == n
    ensures ParseFallbackOutput(prefix + NatToString(n) + " skipped" + suffix).skipped == n
  {
    CountRoundTrip(prefix, n, " passed", suffix);
    CountRoundTrip(prefix, n, " failed", suffix);
    CountRoundTrip(prefix, n, " skipped", suffix);
  }

  /** Output without a count gives zeroes. */
  lemma NoCountsWithoutDigits(output: string)
    requires forall i :: 0 <= i < |output| ==> !IsDigit(output[i])
    ensures ParseFallbackOutput(output) == FallbackStats(0, 0, 0)
  {
    forall word | word in [" passed", " failed", " skipped"]
      ensures CountMatch(output, word).None?
    {
      var at := (s: nat) => CountAt(output, word, s);
      forall j | 0 <= j <= |output|
        ensures at(j).None?
      {
        assert RunEnd(output, j, IsDigit) == j;
      }
    }
  }

  // ---------------------------------------------------------------------
  // A run
  // ---------------------------------------------------------------------

  predicate IsSpecFile(f: string) {
    EndsWith(f, ".spec.js")
  }

  /** The results file the collector reads next: the JSON reporter's text,
      or the fallback summary. */
  datatype ResultsFile = ReporterFile(text: string) | FallbackFile(stats: FallbackStats)

  datatype Execution = Execution(events: seq<Event>, results: ResultsFile)

  /** `executeTests`. The directory listing, Playwright's output chunks,
      its standard error, its exit code, a failure to start it, and the
      report file it may have written are the parameters. */
  function ExecuteTests(files: seq<string>, chunks: seq<string>, stderr: string, exitCode: int,
                        spawnError: Option<string>, report: Option<string>): (r: Result<Execution>)
    ensures r.Err? <==> Count(files, IsSpecFile) == 0 || spawnError.Some?
    ensures Count(files, IsSpecFile) == 0 ==> r == Err("No test files generated")
    ensures r.Ok? ==> r.value.events == ParsedLines(Split(Concat(chunks), "\n"))
    ensures r.Ok? ==> (r.value.results.ReporterFile? <==> report.Some?)
    ensures r.Ok? && report.None? ==>
              r.value.results.stats == ParseFallbackOutput(Concat(chunks) + "\n" + stderr)
  {
    if Count(files, IsSpecFile) == 0 then Err("No test files generated")
    else match spawnError
      case Some(msg) => Err("Playwright execution failed: " + msg)
      case None =>
        StreamEventsAreLineEvents(chunks);
        var results := match report
          case Some(text) => ReporterFile(text)
          case None => FallbackFile(ParseFallbackOutput(Concat(chunks) + "\n" + stderr));
        Ok(Execution(StreamEvents(chunks), results))
  }

  /** A failing exit code is not an error: the outcome does not depend on
      it. */
  lemma ExitCodeIgnored(files: seq<string>, chunks: seq<string>, stderr: string, c1: int, c2: int,
                        spawnError: Option<string>, report: Option<string>)
    ensures ExecuteTests(files, chunks, stderr, c1, spawnError, report)
         == ExecuteTests(files, chunks, stderr, c2, spawnError, report)
  {
  }
}
