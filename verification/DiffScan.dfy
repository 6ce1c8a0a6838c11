/** The scanner of unified diffs: internal/guard's ScanDiff, with the key shapes left as a function from
    a line to the names of the rules it breaks. */
module DiffScan {
  import opened Text

  datatype Finding = Finding(file: string, line: int, rule: string)

  type Rules = string -> seq<string>

  // ----- the scanner -----

  const GIT_HEADER := "diff --git "
  const NEW_HEADER := "+++ "

  datatype State = State(file: string, inHunk: bool, newLn: int)

  function TrimPrefix(s: string, p: string): string { if p <= s then s[|p|..] else s }

  /** strings.Trim of double quotes */
  function TrimQuotesLeft(s: string): string {
    if s != "" && s[0] == '"' then TrimQuotesLeft(s[1..]) else s
  }

  function TrimQuotesRight(s: string): (r: string)
    ensures r <= s
    ensures r != "" ==> r[|r| - 1] != '"'
  {
    if s != "" && s[|s| - 1] == '"' then TrimQuotesRight(s[..|s| - 1]) else s
  }

  function HeaderName(field: string): string {
    var s := TrimQuotesRight(TrimQuotesLeft(TrimSpace(field)));
    if s == "/dev/null" then "" else TrimPrefix(s, "b/")
  }

  /** Position of the last sub in s. */
  function LastIndex(s: string, sub: string, upto: nat): Option<nat> {
    if OccursAt(s, sub, upto) then Some(upto)
    else if upto == 0 then None
    else LastIndex(s, sub, upto - 1)
  }

  function DiffGitName(line: string): string {
    var rest := TrimPrefix(line, GIT_HEADER);
    match LastIndex(rest, " b/", |rest|)
    case Some(i) => if i + 3 <= |rest| then rest[i + 3..] else rest
    case None => rest
  }

  /** The new version's first line: the number between the first plus and the comma or space behind it. */
  function HunkStart(line: string): int {
    var plus := IndexOf(line, '+');
    if plus == |line| then 1 else HunkNumber(line[plus + 1..])
  }

  function HunkNumber(rest: string): int {
    var comma, space := IndexOf(rest, ','), IndexOf(rest, ' ');
    var end := if comma < space then comma else space;
    if end == |rest| || Atoi(rest[..end]).None? then 1 else Atoi(rest[..end]).value
  }

  function Hits(file: string, line: int, rules: seq<string>): seq<Finding> {
    if rules == [] then [] else [Finding(file, line, rules[0])] + Hits(file, line, rules[1..])
  }

  /** What one line does, in the order the scanner asks. */
  function StepState(st: State, line: string): State {
    if GIT_HEADER <= line then State(DiffGitName(line), false, st.newLn)
    else if !st.inHunk && NEW_HEADER <= line then
      var name := HeaderName(line[|NEW_HEADER|..]);
      if name != "" then st.(file := name) else st
    else if "@@" <= line then State(st.file, true, HunkStart(line))
    else if st.inHunk && ("+" <= line || " " <= line) then st.(newLn := st.newLn + 1)
    else st
  }

  predicate Scanned(st: State, line: string) {
    !(GIT_HEADER <= line) && !(!st.inHunk && NEW_HEADER <= line) && !("@@" <= line) && st.inHunk && "+" <= line
  }

  function StepHits(st: State, line: string, scan: Rules): seq<Finding> {
    if Scanned(st, line) then Hits(st.file, st.newLn, scan(line[1..])) else []
  }

  function EndState(st: State, lines: seq<string>): State
    decreases |lines|
  {
    if lines == [] then st else EndState(StepState(st, lines[0]), lines[1..])
  }

  function ScanLines(st: State, lines: seq<string>, scan: Rules): seq<Finding>
    decreases |lines|
  {
    if lines == [] then []
    else StepHits(st, lines[0], scan) + ScanLines(StepState(st, lines[0]), lines[1..], scan)
  }

  const START := State("", false, 0)

  method ScanDiff(diff: string, scan: Rules) returns (out: seq<Finding>)
    ensures out == ScanLines(START, Split(diff, '\n'), scan)
  {
    var lines := Split(diff, '\n');
    var file, inHunk, newLn := "", false, 0;
    out := [];
    assert lines[0..] == lines;
    for i := 0 to |lines|
      invariant out + ScanLines(State(file, inHunk, newLn), lines[i..], scan) == ScanLines(START, lines, scan)
    {
      var line := lines[i];
      ghost var st := State(file, inHunk, newLn);
      ghost var before := out;
      if GIT_HEADER <= line {
        inHunk := false;
        file := DiffGitName(line);
      } else if !inHunk && NEW_HEADER <= line {
        var name := HeaderName(line[|NEW_HEADER|..]);
        if name != "" { file := name; }
      } else if "@@" <= line {
        inHunk := true;
        newLn := HunkStart(line);
      } else if inHunk && "+" <= line {
        out := AddHits(out, file, newLn, scan(line[1..]));
        newLn := newLn + 1;
      } else if inHunk && " " <= line {
        newLn := newLn + 1;
      }
      OneLine(st, lines, i, scan, before, out, State(file, inHunk, newLn));
    }
    assert lines[|lines|..] == [];
    assert out + [] == out;
  }

  method AddHits(before: seq<Finding>, file: string, line: int, rules: seq<string>) returns (out: seq<Finding>)
    ensures out == before + Hits(file, line, rules)
  {
    out := before;
    assert rules[0..] == rules;
    for i := 0 to |rules|
      invariant out + Hits(file, line, rules[i..]) == before + Hits(file, line, rules)
    {
      assert rules[i..][1..] == rules[i + 1..];
      assert out + ([Finding(file, line, rules[i])] + Hits(file, line, rules[i + 1..]))
          == out + [Finding(file, line, rules[i])] + Hits(file, line, rules[i + 1..]);
      out := out + [Finding(file, line, rules[i])];
    }
    assert rules[|rules|..] == [] && out + [] == out;
  }

  lemma OneLine(st: State, lines: seq<string>, i: nat, scan: Rules, before: seq<Finding>, out: seq<Finding>, st': State)
    requires i < |lines| && st' == StepState(st, lines[i]) && out == before + StepHits(st, lines[i], scan)
    ensures before + ScanLines(st, lines[i..], scan) == out + ScanLines(st', lines[i + 1..], scan)
  {
    assert lines[i..][1..] == lines[i + 1..];
    var a, b := StepHits(st, lines[i], scan), ScanLines(st', lines[i + 1..], scan);
    assert before + (a + b) == before + a + b;
  }

  // ----- a unified diff -----

  datatype Change = Context(text: string) | Added(text: string) | Removed(text: string) | NoNewline

  datatype Hunk = Hunk(oldStart: nat, oldCount: Option<nat>, newStart: nat, newCount: Option<nat>,
                       heading: string, body: seq<Change>)

  /** newName is the path of the new version as git prints it, None for a deleted file. `between` is
      what stands between the first line and the hunks, `after` the blank lines behind them. */
  datatype FileDiff = FileDiff(header: string, between: seq<string>, oldField: string, newName: Option<string>,
                               quoted: bool, hunks: seq<Hunk>, after: nat)

  function RenderChange(c: Change): string {
    match c
    case Context(t) => " " + t
    case Added(t) => "+" + t
    case Removed(t) => "-" + t
    case NoNewline => "\\ No newline at end of file"
  }

  function RenderCount(c: Option<nat>): string { if c.Some? then "," + Decimal(c.value) else "" }

  function RenderHunkHeader(h: Hunk): string {
    "@@ -" + Decimal(h.oldStart) + RenderCount(h.oldCount) + " +"
    + (Decimal(h.newStart) + (RenderCount(h.newCount) + " @@" + h.heading))
  }

  function RenderBody(body: seq<Change>): seq<string> {
    if body == [] then [] else [RenderChange(body[0])] + RenderBody(body[1..])
  }

  function RenderHunk(h: Hunk): seq<string> { [RenderHunkHeader(h)] + RenderBody(h.body) }

  function RenderHunks(hs: seq<Hunk>): seq<string> {
    if hs == [] then [] else RenderHunk(hs[0]) + RenderHunks(hs[1..])
  }

  /** The path behind "+++ ": quoted, or with the tab git puts behind a path with a space in it. */
  function Field(name: string, quoted: bool): string {
    if quoted then "\"b/" + name + "\"" else "b/" + name + (if ' ' in name then "\t" else "")
  }

  function NewField(f: FileDiff): string {
    if f.newName.Some? then Field(f.newName.value, f.quoted) else "/dev/null"
  }

  /** The part of a file's block that carries its hunks. */
  function Section(f: FileDiff): seq<string> {
    if f.hunks == [] then [] else ["--- " + f.oldField] + ([NEW_HEADER + NewField(f)] + RenderHunks(f.hunks))
  }

  function Blanks(n: nat): (r: seq<string>)
    ensures |r| == n && forall i | 0 <= i < n :: r[i] == ""
  {
    seq(n, _ => "")
  }

  function RenderFile(f: FileDiff): seq<string> {
    [GIT_HEADER + f.header] + (f.between + (Section(f) + Blanks(f.after)))
  }

  function RenderDiff(fs: seq<FileDiff>): seq<string> {
    if fs == [] then [] else RenderFile(fs[0]) + RenderDiff(fs[1..])
  }

  /** The name can be read back off its line. */
  predicate Readable(name: string, quoted: bool) {
    name != "" && name[|name| - 1] != '"' && (quoted || !IsSpace(name[|name| - 1]))
  }

  predicate OneLineText(s: string) { '\n' !in s }

  predicate ChangeOk(c: Change) { c.NoNewline? || OneLineText(c.text) }

  predicate HunkOk(h: Hunk, deleted: bool) {
    && h.newStart + |h.body| <= MAX_INT && OneLineText(h.heading)
    && (forall c | c in h.body :: ChangeOk(c) && (deleted ==> !c.Added?))
  }

  /** An extended header line: index, modes, similarity, rename, or "Binary files differ". */
  predicate BetweenOk(l: string) {
    OneLineText(l) && !(GIT_HEADER <= l) && !(NEW_HEADER <= l) && !("@@" <= l)
  }

  predicate FileOk(f: FileDiff) {
    && OneLineText(f.header) && OneLineText(f.oldField)
    && (forall l | l in f.between :: BetweenOk(l))
    && (f.newName.Some? ==> OneLineText(f.newName.value) && Readable(f.newName.value, f.quoted))
    && (forall h | h in f.hunks :: HunkOk(h, f.newName.None?))
  }

  // ----- what ought to be found -----

  function ChangeHits(file: string, line: int, c: Change, scan: Rules): seq<Finding> {
    if c.Added? then Hits(file, line, scan(c.text)) else []
  }

  /** How many lines of the new version a change takes up. */
  function Advance(c: Change): nat { if c.Added? || c.Context? then 1 else 0 }

  function BodyHits(file: string, line: int, body: seq<Change>, scan: Rules): seq<Finding>
    decreases |body|
  {
    if body == [] then []
    else ChangeHits(file, line, body[0], scan) + BodyHits(file, line + Advance(body[0]), body[1..], scan)
  }

  function HunksHits(file: string, hs: seq<Hunk>, scan: Rules): seq<Finding> {
    if hs == [] then [] else BodyHits(file, hs[0].newStart, hs[0].body, scan) + HunksHits(file, hs[1..], scan)
  }

  /** The rule hits of the added lines, file by file, with each line's number in the new version. */
  function Expected(fs: seq<FileDiff>, scan: Rules): seq<Finding> {
    if fs == [] then []
    else HunksHits(if fs[0].newName.Some? then fs[0].newName.value else "", fs[0].hunks, scan) + Expected(fs[1..], scan)
  }

  // ----- the proof -----

  lemma NotPrefix(p: string, s: string)
    requires p != "" && (s == "" || s[0] != p[0])
    ensures !(p <= s)
  {
  }

  lemma ScanCons(st: State, line: string, rest: seq<string>, scan: Rules)
    ensures ScanLines(st, [line] + rest, scan) == StepHits(st, line, scan) + ScanLines(StepState(st, line), rest, scan)
    ensures EndState(st, [line] + rest) == EndState(StepState(st, line), rest)
  {
    assert ([line] + rest)[1..] == rest;
  }

  lemma Follows(a: seq<Finding>, b: seq<Finding>, c: seq<Finding>)
    ensures a + (b + c) == (a + b) + c
  {
  }

  lemma {:induction false} ScanConcat(st: State, a: seq<string>, b: seq<string>, scan: Rules)
    ensures ScanLines(st, a + b, scan) == ScanLines(st, a, scan) + ScanLines(EndState(st, a), b, scan)
    ensures EndState(st, a + b) == EndState(EndState(st, a), b)
    decreases |a|
  {
    if a == [] {
      assert a + b == b;
    } else {
      var rest, st1 := a[1..], StepState(st, a[0]);
      assert a == [a[0]] + rest && a + b == [a[0]] + (rest + b);
      ScanCons(st, a[0], rest + b, scan);
      ScanCons(st, a[0], rest, scan);
      ScanConcat(st1, rest, b, scan);
      Follows(StepHits(st, a[0], scan), ScanLines(st1, rest, scan), ScanLines(EndState(st1, rest), b, scan));
    }
  }

  lemma BodyLine(st: State, c: Change, scan: Rules)
    requires st.inHunk
    ensures StepHits(st, RenderChange(c), scan) == ChangeHits(st.file, st.newLn, c, scan)
    ensures StepState(st, RenderChange(c)) == st.(newLn := st.newLn + Advance(c))
  {
    var line := RenderChange(c);
    NotPrefix(GIT_HEADER, line);
    NotPrefix("@@", line);
    if c.Added? { assert line[1..] == c.text; }
  }

  lemma {:induction false} BodyScans(st: State, body: seq<Change>, scan: Rules)
    requires st.inHunk
    ensures ScanLines(st, RenderBody(body), scan) == BodyHits(st.file, st.newLn, body, scan)
    ensures EndState(st, RenderBody(body)).file == st.file && EndState(st, RenderBody(body)).inHunk
    decreases |body|
  {
    if body != [] {
      BodyLine(st, body[0], scan);
      var st1 := st.(newLn := st.newLn + Advance(body[0]));
      BodyScans(st1, body[1..], scan);
      ScanCons(st, RenderChange(body[0]), RenderBody(body[1..]), scan);
    }
  }

  lemma HunkStartReads(h: Hunk)
    requires h.newStart <= MAX_INT
    ensures HunkStart(RenderHunkHeader(h)) == h.newStart
  {
    var pre := "@@ -" + Decimal(h.oldStart) + RenderCount(h.oldCount) + " ";
    var tail := RenderCount(h.newCount) + " @@" + h.heading;
    assert RenderHunkHeader(h) == pre + "+" + (Decimal(h.newStart) + tail);
    assert '+' !in Decimal(h.oldStart) && '+' !in RenderCount(h.oldCount);
    CutPlus(pre, Decimal(h.newStart) + tail);
    NumberReads(h.newStart, tail);
  }

  lemma CutPlus(pre: string, rest: string)
    requires '+' !in pre
    ensures HunkStart(pre + "+" + rest) == HunkNumber(rest)
  {
    var line := pre + "+" + rest;
    assert line[..|pre|] == pre && line[|pre|] == '+' && line[|pre| + 1..] == rest;
    IndexOfIs(line, '+', |pre|);
  }

  lemma NumberReads(n: nat, tail: string)
    requires tail != "" && (tail[0] == ',' || tail[0] == ' ') && n <= MAX_INT
    ensures HunkNumber(Decimal(n) + tail) == n
  {
    var rest, k := Decimal(n) + tail, |Decimal(n)|;
    assert rest[..k] == Decimal(n) && rest[k] == tail[0];
    assert ',' !in Decimal(n) && ' ' !in Decimal(n);
    IndexOfIs(rest, tail[0], k);
    IndexAfter(rest, if tail[0] == ',' then ' ' else ',', k);
    AtoiDecimal(n);
  }

  lemma IndexAfter(s: string, c: char, k: nat)
    requires k < |s| && c !in s[..k] && s[k] != c
    ensures IndexOf(s, c) > k
  {
    var i := IndexOf(s, c);
    assert i == |s| || i >= k;
  }

  lemma HunkHeaderScans(st: State, h: Hunk, scan: Rules)
    requires h.newStart <= MAX_INT
    ensures StepState(st, RenderHunkHeader(h)) == State(st.file, true, h.newStart)
    ensures StepHits(st, RenderHunkHeader(h), scan) == []
  {
    var line := RenderHunkHeader(h);
    assert line[0] == '@' && line[1] == '@';
    NotPrefix(GIT_HEADER, line);
    NotPrefix(NEW_HEADER, line);
    HunkStartReads(h);
  }

  lemma HunkScans(st: State, h: Hunk, scan: Rules)
    requires h.newStart <= MAX_INT
    ensures ScanLines(st, RenderHunk(h), scan) == BodyHits(st.file, h.newStart, h.body, scan)
    ensures EndState(st, RenderHunk(h)).file == st.file && EndState(st, RenderHunk(h)).inHunk
  {
    HunkHeaderScans(st, h, scan);
    BodyScans(State(st.file, true, h.newStart), h.body, scan);
    assert RenderHunk(h)[1..] == RenderBody(h.body);
  }

  lemma {:induction false} HunksScan(st: State, hs: seq<Hunk>, scan: Rules)
    requires forall h | h in hs :: h.newStart <= MAX_INT
    ensures ScanLines(st, RenderHunks(hs), scan) == HunksHits(st.file, hs, scan)
    decreases |hs|
  {
    if hs != [] {
      HunkScans(st, hs[0], scan);
      ScanConcat(st, RenderHunk(hs[0]), RenderHunks(hs[1..]), scan);
      assert hs[0] in hs && forall h | h in hs[1..] :: h in hs;
      HunksScan(EndState(st, RenderHunk(hs[0])), hs[1..], scan);
    }
  }

  lemma {:induction false} BetweenScans(st: State, lines: seq<string>, scan: Rules)
    requires !st.inHunk && forall l | l in lines :: BetweenOk(l)
    ensures ScanLines(st, lines, scan) == [] && EndState(st, lines) == st
    decreases |lines|
  {
    if lines != [] {
      assert BetweenOk(lines[0]);
      BetweenScans(st, lines[1..], scan);
    }
  }

  lemma {:induction false} BlanksScan(st: State, n: nat, scan: Rules)
    ensures ScanLines(st, Blanks(n), scan) == [] && EndState(st, Blanks(n)) == st
    decreases n
  {
    if n > 0 {
      NotPrefix(GIT_HEADER, "");
      BlanksScan(st, n - 1, scan);
      assert Blanks(n)[1..] == Blanks(n - 1);
    }
  }

  // ----- names -----

  lemma QuotesLeftNone(s: string)
    requires s != "" && s[0] != '"'
    ensures TrimQuotesLeft(s) == s
  {
  }

  lemma QuotedName(name: string)
    ensures HeaderName(Field(name, true)) == TrimQuotesRight(name)
  {
    var f := "\"b/" + name + "\"";
    var g := "b/" + name + "\"";
    TrimLeftNone(f);
    TrimRightNone(f);
    assert f[1..] == g;
    QuotesLeftNone(g);
    QuoteDropped("b/" + name);
    TrimQuotesInside("b/", name);
    PrefixKept(TrimQuotesRight(name));
  }

  lemma QuoteDropped(s: string)
    ensures TrimQuotesRight(s + "\"") == TrimQuotesRight(s)
  {
    assert (s + "\"")[..|s|] == s;
  }

  lemma PrefixKept(n: string)
    ensures var s := "b/" + n; s != "/dev/null" && TrimPrefix(s, "b/") == n
  {
    var s := "b/" + n;
    assert s[0] == 'b' && s[2..] == n;
  }

  lemma {:induction false} TrimQuotesInside(p: string, name: string)
    requires p != "" && p[|p| - 1] != '"'
    ensures TrimQuotesRight(p + name) == p + TrimQuotesRight(name)
    decreases |name|
  {
    var s := p + name;
    if name == "" {
      assert s == p && p + "" == p;
    } else if name[|name| - 1] == '"' {
      assert s[..|s| - 1] == p + name[..|name| - 1];
      TrimQuotesInside(p, name[..|name| - 1]);
    }
  }

  lemma {:induction false} TrimRightInside(p: string, name: string)
    requires p != "" && !IsSpace(p[|p| - 1])
    ensures TrimRight(p + name) == p + TrimRight(name)
    decreases |name|
  {
    var s := p + name;
    if name == "" {
      assert s == p && p + "" == p;
    } else if IsSpace(name[|name| - 1]) {
      assert s[..|s| - 1] == p + name[..|name| - 1];
      TrimRightInside(p, name[..|name| - 1]);
    }
  }

  lemma TabDropped(name: string)
    ensures TrimRight(name + "\t") == TrimRight(name)
  {
    assert (name + "\t")[..|name|] == name;
  }

  lemma PlainName(name: string)
    ensures HeaderName(Field(name, false)) == TrimQuotesRight(TrimRight(name))
  {
    var f := Field(name, false);
    var tail := if ' ' in name then "\t" else "";
    assert f == "b/" + (name + tail);
    TrimLeftNone(f);
    TrimRightInside("b/", name + tail);
    if tail == "" { assert name + tail == name; } else { TabDropped(name); }
    var s := "b/" + TrimRight(name);
    QuotesLeftNone(s);
    TrimQuotesInside("b/", TrimRight(name));
    PrefixKept(TrimQuotesRight(TrimRight(name)));
  }

  lemma {:induction false} LastIndexIs(s: string, sub: string, upto: nat)
    ensures match LastIndex(s, sub, upto)
            case Some(k) => k <= upto && OccursAt(s, sub, k) && forall j: nat | k < j <= upto :: !OccursAt(s, sub, j)
            case None => forall j: nat | j <= upto :: !OccursAt(s, sub, j)
  {
    if upto > 0 { LastIndexIs(s, sub, upto - 1); }
  }

  /** Where " b/" can stand in such a line, behind the one before the path. */
  lemma BehindTheMark(was: string, name: string, j: nat)
    requires j > |was|
    ensures OccursAt(was + " b/" + name, " b/", j) <==> j >= |was| + 3 && OccursAt(name, " b/", j - |was| - 3)
  {
    var rest := was + " b/" + name;
    OccursIff(rest, " b/", j);
    if j >= |was| + 3 {
      OccursIff(name, " b/", j - |was| - 3);
      assert forall k | 0 <= k < |name| :: rest[|was| + 3 + k] == name[k];
    } else {
      assert rest[|was| + 1] == 'b' && rest[|was| + 2] == '/';
    }
  }

  lemma MarkStands(was: string, name: string)
    ensures OccursAt(was + " b/" + name, " b/", |was|)
  {
  }

  lemma TailIs(was: string, name: string, k: nat)
    requires |was| <= k && k + 3 <= |was + " b/" + name|
    ensures var rest := was + " b/" + name;
            |rest[k + 3..]| == |name| - (k - |was|) && (k == |was| ==> rest[k + 3..] == name)
  {
  }

  lemma GitNameIs(was: string, name: string)
    ensures DiffGitName(GIT_HEADER + (was + " b/" + name)) == name <==> !Contains(name, " b/")
  {
    var rest := was + " b/" + name;
    assert (GIT_HEADER + rest)[|GIT_HEADER|..] == rest;
    LastIndexIs(rest, " b/", |rest|);
    MarkStands(was, name);
    var k := LastIndex(rest, " b/", |rest|).value;
    TailIs(was, name, k);
    if k > |was| { BehindTheMark(was, name, k); }
    forall j: nat | j <= |name| && OccursAt(name, " b/", j) ensures k > |was| {
      BehindTheMark(was, name, |was| + 3 + j);
    }
  }

  lemma {:induction false} OutsideNoHits(st: State, lines: seq<string>, scan: Rules)
    requires !st.inHunk && forall l | l in lines :: !("@@" <= l)
    ensures ScanLines(st, lines, scan) == []
    decreases |lines|
  {
    if lines != [] {
      assert lines[0] in lines && forall l | l in lines[1..] :: l in lines;
      OutsideNoHits(StepState(st, lines[0]), lines[1..], scan);
    }
  }

  /** A text without a hunk header has no findings, whatever its lines look like. */
  lemma NoHunkNoHits(diff: string, scan: Rules)
    requires forall l | l in Split(diff, '\n') :: !("@@" <= l)
    ensures ScanLines(START, Split(diff, '\n'), scan) == []
  {
    OutsideNoHits(START, Split(diff, '\n'), scan);
  }

  lemma NamesFile(st: State, rest: string)
    ensures StepState(st, "diff --git " + rest) == State(DiffGitName(GIT_HEADER + rest), false, st.newLn)
  {
    assert GIT_HEADER <= GIT_HEADER + rest;
  }

  lemma NullName()
    ensures HeaderName("/dev/null") == ""
  {
    assert TrimSpace("/dev/null") == "/dev/null";
  }

  lemma NamesNone(st: State)
    requires !st.inHunk
    ensures StepState(st, "+++ /dev/null") == st
  {
    var line := "+++ /dev/null";
    NotPrefix(GIT_HEADER, line);
    assert line == NEW_HEADER + "/dev/null" && line[|NEW_HEADER|..] == "/dev/null";
    NullName();
  }

  /** When the +++ line names no file, the one its first line names stands: read right exactly when " b/" is
      not in its path. */
  lemma GitNameIff(st: State, was: string, name: string)
    ensures var st' := StepState(st, "diff --git " + (was + " b/" + name));
            StepState(st', "+++ /dev/null").file == name <==> !Contains(name, " b/")
  {
    GitNameIs(was, name);
    NamesFile(st, was + " b/" + name);
    NamesNone(StepState(st, "diff --git " + (was + " b/" + name)));
  }

  /** The path read off a header is the one git printed there exactly when it ends in no quote and,
      unquoted, in no white space. */
  lemma HeaderReadsIff(name: string, quoted: bool)
    requires name != ""
    ensures HeaderName(Field(name, quoted)) == name <==> Readable(name, quoted)
  {
    if quoted {
      QuotedName(name);
      TrimmedIff(name);
    } else {
      PlainName(name);
      if IsSpace(name[|name| - 1]) {
        assert |TrimRight(name)| < |name|;
      } else {
        TrimRightNone(name);
        TrimmedIff(name);
      }
    }
  }

  lemma TrimmedIff(name: string)
    ensures TrimQuotesRight(name) == name <==> name == "" || name[|name| - 1] != '"'
  {
  }

  // ----- files -----

  lemma FileHeaderScans(st: State, f: FileDiff, scan: Rules)
    ensures var line := GIT_HEADER + f.header;
            StepState(st, line) == State(DiffGitName(line), false, st.newLn) && StepHits(st, line, scan) == []
  {
    assert GIT_HEADER <= GIT_HEADER + f.header;
  }

  lemma NewFieldScans(st: State, f: FileDiff, scan: Rules)
    requires !st.inHunk && FileOk(f)
    ensures var line := NEW_HEADER + NewField(f);
            && StepHits(st, line, scan) == []
            && StepState(st, line) == if f.newName.Some? then st.(file := f.newName.value) else st
  {
    var line := NEW_HEADER + NewField(f);
    assert NEW_HEADER <= line && line[|NEW_HEADER|..] == NewField(f);
    NotPrefix(GIT_HEADER, line);
    if f.newName.Some? {
      HeaderReadsIff(f.newName.value, f.quoted);
    } else {
      DevNull();
    }
  }

  lemma DevNull()
    ensures HeaderName("/dev/null") == ""
  {
    var s := "/dev/null";
    assert s[0] == '/' && s[8] == 'l';
    TrimLeftNone(s);
    TrimRightNone(s);
    QuotesLeftNone(s);
    TrimmedIff(s);
  }

  lemma SectionScans(st: State, f: FileDiff, scan: Rules)
    requires !st.inHunk && FileOk(f) && f.hunks != []
    ensures ScanLines(st, Section(f), scan)
            == HunksHits(if f.newName.Some? then f.newName.value else st.file, f.hunks, scan)
  {
    var newLine := NEW_HEADER + NewField(f);
    OldFieldScans(st, f, scan);
    NewFieldScans(st, f, scan);
    ScanCons(st, "--- " + f.oldField, [newLine] + RenderHunks(f.hunks), scan);
    ScanCons(st, newLine, RenderHunks(f.hunks), scan);
    forall h | h in f.hunks ensures h.newStart <= MAX_INT { assert HunkOk(h, f.newName.None?); }
    HunksScan(if f.newName.Some? then st.(file := f.newName.value) else st, f.hunks, scan);
  }

  lemma OldFieldScans(st: State, f: FileDiff, scan: Rules)
    requires !st.inHunk
    ensures StepState(st, "--- " + f.oldField) == st && StepHits(st, "--- " + f.oldField, scan) == []
  {
    var oldLine := "--- " + f.oldField;
    NotPrefix(GIT_HEADER, oldLine);
    NotPrefix(NEW_HEADER, oldLine);
    NotPrefix("@@", oldLine);
  }

  lemma FileScans(st: State, f: FileDiff, scan: Rules)
    requires FileOk(f)
    ensures ScanLines(st, RenderFile(f), scan)
            == HunksHits(if f.newName.Some? then f.newName.value else DiffGitName(GIT_HEADER + f.header), f.hunks, scan)
  {
    var line := GIT_HEADER + f.header;
    FileHeaderScans(st, f, scan);
    ScanCons(st, line, f.between + (Section(f) + Blanks(f.after)), scan);
    RestScans(State(DiffGitName(line), false, st.newLn), f, scan);
  }

  lemma RestScans(st: State, f: FileDiff, scan: Rules)
    requires FileOk(f) && !st.inHunk
    ensures ScanLines(st, f.between + (Section(f) + Blanks(f.after)), scan)
            == HunksHits(if f.newName.Some? then f.newName.value else st.file, f.hunks, scan)
  {
    BetweenScans(st, f.between, scan);
    ScanConcat(st, f.between, Section(f) + Blanks(f.after), scan);
    ScanConcat(st, Section(f), Blanks(f.after), scan);
    BlanksScan(EndState(st, Section(f)), f.after, scan);
    if f.hunks != [] { SectionScans(st, f, scan); }
  }

  lemma {:induction false} NoAddedNoHits(file: string, line: int, body: seq<Change>, scan: Rules)
    requires forall c | c in body :: !c.Added?
    ensures BodyHits(file, line, body, scan) == []
    decreases |body|
  {
    if body != [] {
      assert body[0] in body && forall c | c in body[1..] :: c in body;
      NoAddedNoHits(file, line + Advance(body[0]), body[1..], scan);
    }
  }

  /** A deleted file adds nothing, so the name it is reported under does not matter. */
  lemma {:induction false} DeletedNoHits(file: string, hs: seq<Hunk>, scan: Rules)
    requires forall h | h in hs :: HunkOk(h, true)
    ensures HunksHits(file, hs, scan) == []
    decreases |hs|
  {
    if hs != [] {
      assert HunkOk(hs[0], true) && forall h | h in hs[1..] :: h in hs;
      NoAddedNoHits(file, hs[0].newStart, hs[0].body, scan);
      DeletedNoHits(file, hs[1..], scan);
    }
  }

  lemma {:induction false} DiffScans(st: State, fs: seq<FileDiff>, scan: Rules)
    requires forall f | f in fs :: FileOk(f)
    ensures ScanLines(st, RenderDiff(fs), scan) == Expected(fs, scan)
    decreases |fs|
  {
    if fs != [] {
      var f := fs[0];
      assert f in fs && forall g | g in fs[1..] :: g in fs;
      FileScans(st, f, scan);
      if f.newName.None? {
        DeletedNoHits(DiffGitName(GIT_HEADER + f.header), f.hunks, scan);
        DeletedNoHits("", f.hunks, scan);
      }
      ScanConcat(st, RenderFile(f), RenderDiff(fs[1..]), scan);
      DiffScans(EndState(st, RenderFile(f)), fs[1..], scan);
    }
  }

  // ----- no rendered line holds a line break -----

  lemma {:induction false} BodyOneLine(body: seq<Change>)
    requires forall c | c in body :: ChangeOk(c)
    ensures forall l | l in RenderBody(body) :: OneLineText(l)
    decreases |body|
  {
    if body != [] {
      assert ChangeOk(body[0]) && forall c | c in body[1..] :: c in body;
      BodyOneLine(body[1..]);
    }
  }

  lemma HunkHeaderOneLine(h: Hunk)
    requires OneLineText(h.heading)
    ensures OneLineText(RenderHunkHeader(h))
  {
    assert OneLineText(Decimal(h.oldStart)) && OneLineText(Decimal(h.newStart));
    assert OneLineText(RenderCount(h.oldCount)) && OneLineText(RenderCount(h.newCount));
  }

  lemma {:induction false} HunksOneLine(hs: seq<Hunk>, deleted: bool)
    requires forall h | h in hs :: HunkOk(h, deleted)
    ensures OneLineTexts(RenderHunks(hs))
    decreases |hs|
  {
    if hs != [] {
      assert HunkOk(hs[0], deleted) && forall h | h in hs[1..] :: h in hs;
      HunkHeaderOneLine(hs[0]);
      BodyOneLine(hs[0].body);
      HunksOneLine(hs[1..], deleted);
    }
  }

  predicate OneLineTexts(ls: seq<string>) { forall l | l in ls :: OneLineText(l) }

  lemma OneLineConcat(a: seq<string>, b: seq<string>)
    requires OneLineTexts(a) && OneLineTexts(b)
    ensures OneLineTexts(a + b)
  {
  }

  lemma FieldOneLine(f: FileDiff)
    requires f.newName.Some? ==> OneLineText(f.newName.value)
    ensures OneLineText(NewField(f))
  {
  }

  lemma SectionOneLine(f: FileDiff)
    requires FileOk(f)
    ensures OneLineTexts(Section(f))
  {
    HunksOneLine(f.hunks, f.newName.None?);
    FieldOneLine(f);
    assert OneLineText("--- " + f.oldField) && OneLineText(NEW_HEADER + NewField(f));
    OneLineConcat([NEW_HEADER + NewField(f)], RenderHunks(f.hunks));
    OneLineConcat(["--- " + f.oldField], [NEW_HEADER + NewField(f)] + RenderHunks(f.hunks));
  }

  lemma FileOneLine(f: FileDiff)
    requires FileOk(f)
    ensures OneLineTexts(RenderFile(f))
  {
    SectionOneLine(f);
    assert forall l | l in f.between :: BetweenOk(l);
    assert OneLineText(GIT_HEADER + f.header);
    OneLineConcat(Section(f), Blanks(f.after));
    OneLineConcat(f.between, Section(f) + Blanks(f.after));
    OneLineConcat([GIT_HEADER + f.header], f.between + (Section(f) + Blanks(f.after)));
  }

  lemma {:induction false} DiffOneLine(fs: seq<FileDiff>)
    requires forall f | f in fs :: FileOk(f)
    ensures OneLineTexts(RenderDiff(fs))
    decreases |fs|
  {
    if fs != [] {
      assert fs[0] in fs && forall g | g in fs[1..] :: g in fs;
      FileOneLine(fs[0]);
      DiffOneLine(fs[1..]);
    }
  }

  lemma BlanksAddNone(lines: seq<string>, n: nat, scan: Rules)
    ensures ScanLines(START, lines + Blanks(n), scan) == ScanLines(START, lines, scan)
  {
    ScanConcat(START, lines, Blanks(n), scan);
    BlanksScan(EndState(START, lines), n, scan);
  }

  /** For every well-formed unified diff, whatever its lines say, the scanner reports exactly the rule
      hits of the added lines, in order, each with its file and its line number in the new version.
      `tail` is the line break git ends its output with. */
  lemma ScanDiffFindsAddedLines(fs: seq<FileDiff>, tail: bool, scan: Rules)
    requires fs != [] && forall f | f in fs :: FileOk(f)
    ensures var text := Join(RenderDiff(fs) + (if tail then [""] else []), '\n');
            ScanLines(START, Split(text, '\n'), scan) == Expected(fs, scan)
  {
    var n := if tail then 1 else 0;
    assert (if tail then [""] else []) == Blanks(n);
    DiffSplits(fs, Blanks(n));
    BlanksAddNone(RenderDiff(fs), n, scan);
    DiffScans(START, fs, scan);
  }

  lemma DiffSplits(fs: seq<FileDiff>, blanks: seq<string>)
    requires fs != [] && (forall f | f in fs :: FileOk(f)) && (blanks == [] || blanks == [""])
    ensures Split(Join(RenderDiff(fs) + blanks, '\n'), '\n') == RenderDiff(fs) + blanks
  {
    DiffOneLine(fs);
    assert RenderDiff(fs) + blanks != [] by { assert RenderFile(fs[0]) != []; }
    SplitJoin(RenderDiff(fs) + blanks, '\n');
  }
}
