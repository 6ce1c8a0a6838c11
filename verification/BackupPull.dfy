/** Finding one run's files again, from the line the script printed and a listing of the directory:
    internal/backup's SetTimestamp and SetFiles. */
module BackupPull {
  import opened Text
  import opened BackupNames

  // ----- the printed line -----

  const OK_MARK := "backup ok: "

  /** \s of the regular expression */
  predicate RegexSpace(c: char) { c == ' ' || c == '\t' || c == '\n' || c == '\r' || c as int == 12 }

  /** A dash, a timestamp, and then a dot, a space or the end of the line. */
  predicate TailAt(line: string, k: nat) {
    && k < |line| && line[k] == '-' && StampAt(line, k + 1)
    && (k + 16 == |line| || line[k + 16] == '.' || RegexSpace(line[k + 16]))
  }

  /** The shortest run of non-spaces from k that such a tail follows. */
  function OkFrom(line: string, k: nat): Option<string>
    decreases |line| - k
  {
    if k >= |line| then None
    else if TailAt(line, k) then Some(line[k + 1..k + 16])
    else if RegexSpace(line[k]) then None
    else OkFrom(line, k + 1)
  }

  function LineStamp(line: string): Option<string> {
    if OK_MARK <= line then OkFrom(line, |OK_MARK|) else None
  }

  function FirstStamp(lines: seq<string>): Option<string> {
    if lines == [] then None
    else if LineStamp(lines[0]).Some? then LineStamp(lines[0])
    else FirstStamp(lines[1..])
  }

  function SetTimestamp(out: string): Option<string> { FirstStamp(Split(out, '\n')) }

  /** The end of the script's report. */
  function OkLine(name: string, size: string, dir: string): string {
    OK_MARK + name + " (" + size + ") in " + dir
  }

  /** Where a line says that timestamp: in its first word after the mark, after a dash. */
  predicate SaysAt(line: string, ts: string, k: nat) {
    && |"backup ok: "| <= k && k + 16 <= |line| && line[k] == '-' && line[k + 1..k + 16] == ts
    && forall j | |"backup ok: "| <= j < k :: line[j] != ' ' && line[j] != '\t' && line[j] != '\r'
  }

  lemma {:induction false} OkFromSays(line: string, k: nat)
    requires |OK_MARK| <= k && OkFrom(line, k).Some?
    requires forall j | |OK_MARK| <= j < k && j < |line| :: !RegexSpace(line[j])
    ensures IsStamp(OkFrom(line, k).value) && exists m: nat :: SaysAt(line, OkFrom(line, k).value, m)
    decreases |line| - k
  {
    if TailAt(line, k) { assert SaysAt(line, line[k + 1..k + 16], k); } else { OkFromSays(line, k + 1); }
  }

  ghost predicate Says(l: string, ts: string) { "backup ok: " <= l && exists m: nat :: SaysAt(l, ts, m) }

  /** A timestamp read from a run's output is one, and a line of the output that starts with the mark says
      it. */
  lemma {:induction false} FirstStampIsSaid(lines: seq<string>)
    requires FirstStamp(lines).Some?
    ensures IsStamp(FirstStamp(lines).value) && exists i: nat | i < |lines| :: Says(lines[i], FirstStamp(lines).value)
    decreases |lines|
  {
    if LineStamp(lines[0]).Some? {
      OkFromSays(lines[0], |OK_MARK|);
      assert Says(lines[0], FirstStamp(lines).value);
    } else {
      FirstStampIsSaid(lines[1..]);
      var i: nat :| i < |lines[1..]| && Says(lines[1..][i], FirstStamp(lines[1..]).value);
      assert Says(lines[i + 1], FirstStamp(lines).value);
    }
  }

  lemma {:induction false} OkFromFinds(line: string, k: nat, m: nat)
    requires k <= m && TailAt(line, m)
    requires forall j | k <= j < m :: line[j] != '-' && !RegexSpace(line[j])
    ensures OkFrom(line, k) == Some(line[m + 1..m + 16])
    decreases m - k
  {
    if k < m { OkFromFinds(line, k + 1, m); }
  }

  lemma LineStampReads(t: Template, ts: string, rest: string)
    requires WellNamed(t) && IsStamp(ts)
    ensures LineStamp(OK_MARK + (t.Name(ts) + rest)) == Some(ts)
  {
    var line := OK_MARK + (t.Name(ts) + rest);
    var m := |OK_MARK| + |t.pre| - 1;
    assert line[m + 1..m + 16] == ts;
    assert forall j | |OK_MARK| <= j < m :: line[j] == t.pre[j - |OK_MARK|];
    assert line[m] == t.pre[|t.pre| - 1];
    assert line[m + 16] == t.post[0];
    OkFromFinds(line, |OK_MARK|, m);
  }

  lemma {:induction false} FirstStampSkips(noise: seq<string>, line: string, rest: seq<string>)
    requires forall n | n in noise :: !(OK_MARK <= n)
    requires LineStamp(line).Some?
    ensures FirstStamp(noise + [line] + rest) == LineStamp(line)
    decreases |noise|
  {
    if noise != [] {
      assert (noise + [line] + rest)[1..] == noise[1..] + [line] + rest;
      assert noise[0] in noise && forall n | n in noise[1..] :: n in noise;
      FirstStampSkips(noise[1..], line, rest);
    }
  }

  /** Whatever else the commands of a run print, the timestamp read back from its report is the run's. */
  lemma SetTimestampReadsBack(t: Template, ts: string, noise: seq<string>, size: string, dir: string)
    requires WellNamed(t) && IsStamp(ts)
    requires forall n | n in noise :: '\n' !in n && !(OK_MARK <= n)
    requires '\n' !in size && '\n' !in dir
    ensures SetTimestamp(Join(noise + [OkLine(t.Name(ts), size, dir), ""], '\n')) == Some(ts)
  {
    var line := OkLine(t.Name(ts), size, dir);
    OkLineReads(t, ts, size, dir);
    SplitJoin(noise + [line, ""], '\n');
    assert noise + [line, ""] == noise + [line] + [""];
    FirstStampSkips(noise, line, [""]);
  }

  lemma OkLineReads(t: Template, ts: string, size: string, dir: string)
    requires WellNamed(t) && IsStamp(ts) && '\n' !in size && '\n' !in dir
    ensures var line := OkLine(t.Name(ts), size, dir);
            '\n' !in line && LineStamp(line) == Some(ts)
  {
    var rest := " (" + size + ") in " + dir;
    assert OkLine(t.Name(ts), size, dir) == OK_MARK + (t.Name(ts) + rest);
    assert forall i | 0 <= i < |t.pre| - 1 :: IsWordChar(t.pre[i]);
    assert '\n' !in t.pre && '\n' !in ts && '\n' !in t.post;
    LineStampReads(t, ts, rest);
  }

  // ----- the listing -----

  predicate NameChar(c: char) { IsDigit(c) || 'a' <= c <= 'z' || 'A' <= c <= 'Z' || c == '_' || c == '.' || c == '-' }

  predicate PlainName(s: string) {
    && s != "" && s[0] != '_' && s[0] != '.' && s[0] != '-'
    && forall i | 0 <= i < |s| :: NameChar(s[i])
  }

  /** A name that may be pulled at all. */
  predicate Safe(s: string) {
    !HasSuffix(s, ".partial") && !Contains(s, "..") && PlainName(s)
  }

  predicate OfSet(s: string, ts: string) {
    HasSuffix(s, "-" + ts) || Contains(s, "-" + ts + ".")
  }

  predicate Wanted(name: string, ts: string) { Safe(name) && OfSet(name, ts) }

  /** What one line of the listing contributes. */
  function LineNames(line: string, ts: string): seq<string> {
    if Wanted(TrimSpace(line), ts) then [TrimSpace(line)] else []
  }

  function Chosen(lines: seq<string>, ts: string): seq<string> {
    if lines == [] then [] else LineNames(lines[0], ts) + Chosen(lines[1..], ts)
  }

  method Filter(lines: seq<string>, ts: string) returns (found: seq<string>)
    ensures found == Chosen(lines, ts)
  {
    found := [];
    for i := 0 to |lines|
      invariant found + Chosen(lines[i..], ts) == Chosen(lines, ts)
    {
      assert lines[i..][0] == lines[i] && lines[i..][1..] == lines[i + 1..];
      Rejoin(found, LineNames(lines[i], ts), Chosen(lines[i + 1..], ts));
      found := found + LineNames(lines[i], ts);
    }
    assert lines[|lines|..] == [] && found + [] == found;
  }

  lemma Rejoin(a: seq<string>, b: seq<string>, c: seq<string>)
    ensures a + (b + c) == (a + b) + c
  {
  }

  /** SetFiles: the loop over the listing, then the sort. */
  method SetFiles(listing: string, ts: string) returns (out: seq<string>)
    ensures Ordered(out) && multiset(out) == multiset(Chosen(Split(listing, '\n'), ts))
  {
    var found := Filter(Split(listing, '\n'), ts);
    out := SortNames(found);
  }

  ghost predicate Listed(lines: seq<string>, name: string) {
    exists l :: l in lines && TrimSpace(l) == name
  }

  lemma ListedCons(line: string, rest: seq<string>, name: string)
    ensures Listed([line] + rest, name) <==> TrimSpace(line) == name || Listed(rest, name)
  {
    if TrimSpace(line) == name { assert line in [line] + rest; }
    if Listed(rest, name) {
      var l :| l in rest && TrimSpace(l) == name;
      assert l in [line] + rest;
    }
  }

  lemma LineNamesIff(line: string, ts: string, name: string)
    ensures name in LineNames(line, ts) <==> Wanted(name, ts) && TrimSpace(line) == name
  {
  }

  lemma ChosenCons(line: string, rest: seq<string>, ts: string, name: string)
    ensures name in Chosen([line] + rest, ts) <==> name in LineNames(line, ts) || name in Chosen(rest, ts)
  {
    assert ([line] + rest)[1..] == rest;
  }

  lemma {:induction false} ChosenIff(lines: seq<string>, ts: string, name: string)
    ensures name in Chosen(lines, ts) <==> Wanted(name, ts) && Listed(lines, name)
    decreases |lines|
  {
    if lines != [] {
      LineNamesIff(lines[0], ts, name);
      ChosenCons(lines[0], lines[1..], ts, name);
      ChosenIff(lines[1..], ts, name);
      ListedCons(lines[0], lines[1..], name);
      assert lines == [lines[0]] + lines[1..];
    }
  }

  predicate Letter(c: char) { 'a' <= c <= 'z' || 'A' <= c <= 'Z' }

  /** A letter or a digit first, then those, underscores, dots and dashes. */
  predicate Joinable(name: string) {
    && name != "" && (IsDigit(name[0]) || Letter(name[0]))
    && forall i | 0 <= i < |name| :: IsDigit(name[i]) || Letter(name[i]) || name[i] in {'_', '.', '-'}
  }

  lemma PlainIff(name: string)
    ensures PlainName(name) <==> Joinable(name)
    ensures Joinable(name) ==> '/' !in name
  {
    forall c ensures NameChar(c) <==> IsDigit(c) || Letter(c) || c in {'_', '.', '-'} {}
    if name != "" && PlainName(name) { assert NameChar(name[0]); }
  }

  /** Whatever the listing says, a name is chosen exactly when it is one of its lines, can be joined onto a
      local directory, so that it has no slash and no "..", is no half-written dump, and carries the timestamp
      after a dash and before a dot or its end. */
  lemma ChosenAreSafe(lines: seq<string>, ts: string, name: string)
    ensures name in Chosen(lines, ts) <==>
            && Listed(lines, name) && Joinable(name) && !Contains(name, "..") && !HasSuffix(name, ".partial")
            && (HasSuffix(name, "-" + ts) || Contains(name, "-" + ts + "."))
    ensures name in Chosen(lines, ts) ==> '/' !in name
  {
    ChosenIff(lines, ts, name);
    PlainIff(name);
  }

  // ----- which files those are -----

  /** One dash in front of the timestamp, none behind it. */
  predicate OneDash(t: Template) {
    && t.pre != "" && t.pre[|t.pre| - 1] == '-'
    && (forall i | 0 <= i < |t.pre| - 1 :: t.pre[i] != '-' && t.pre[i] != '.')
    && '-' !in t.post && (t.post != "" ==> t.post[0] == '.' && !IsDigit(t.post[|t.post| - 1]))
  }

  lemma DashPlaces(t: Template, us: string, i: nat)
    requires OneDash(t) && IsStamp(us) && i < |t.Name(us)|
    ensures t.Name(us)[i] == '-' <==> i == |t.pre| - 1 || i == |t.pre| + 8
  {
    var s := t.Name(us);
    if i < |t.pre| {
      assert s[i] == t.pre[i];
    } else if i < |t.pre| + 15 {
      assert s[i] == us[i - |t.pre|];
    } else {
      assert s[i] == t.post[i - |t.pre| - 15] && t.post[i - |t.pre| - 15] in t.post;
    }
  }

  lemma OccursOnce(t: Template, us: string, ts: string, i: nat)
    requires OneDash(t) && IsStamp(us) && IsStamp(ts)
    ensures OccursAt(t.Name(us), "-" + ts + ".", i) <==> i == |t.pre| - 1 && us == ts && t.post != ""
  {
    var s, sub, p := t.Name(us), "-" + ts + ".", |t.pre|;
    OccursIff(s, sub, i);
    assert sub[0] == '-' && sub[9] == ts[8] && sub[16] == '.';
    if i + 17 <= |s| {
      DashPlaces(t, us, i);
      DashPlaces(t, us, i + 9);
      if i == p - 1 {
        assert s[p + 15] == t.post[0];
        assert s[p - 1..p + 16] == "-" + us + ".";
        assert ("-" + us + ".")[1..16] == us && ("-" + ts + ".")[1..16] == ts;
      }
    }
  }

  lemma ContainsStamp(t: Template, us: string, ts: string)
    requires OneDash(t) && IsStamp(us) && IsStamp(ts)
    ensures Contains(t.Name(us), "-" + ts + ".") <==> us == ts && t.post != ""
  {
    OccursOnce(t, us, ts, |t.pre| - 1);
    forall i: nat | i <= |t.Name(us)|
      ensures OccursAt(t.Name(us), "-" + ts + ".", i) ==> us == ts && t.post != ""
    {
      OccursOnce(t, us, ts, i);
    }
  }

  lemma EndsInStamp(t: Template, us: string, ts: string)
    requires OneDash(t) && IsStamp(us) && IsStamp(ts)
    ensures HasSuffix(t.Name(us), "-" + ts) <==> us == ts && t.post == ""
  {
    var s, sub := t.Name(us), "-" + ts;
    SuffixIff(s, sub);
    assert sub[15] == ts[14];
    if t.post == "" {
      assert s[|s| - 16..] == "-" + us;
      assert ("-" + us)[1..] == us && sub[1..] == ts;
    } else {
      assert s[|s| - 1] == t.post[|t.post| - 1];
    }
  }

  lemma OfSetIff(t: Template, us: string, ts: string)
    requires OneDash(t) && IsStamp(us) && IsStamp(ts)
    ensures OfSet(t.Name(us), ts) <==> us == ts
  {
    ContainsStamp(t, us, ts);
    EndsInStamp(t, us, ts);
  }

  lemma WellNamedOneDash(t: Template)
    requires WellNamed(t) || t == ENV_TEMPLATE
    ensures OneDash(t)
  {
    if WellNamed(t) {
      assert forall i | 0 <= i < |t.pre| - 1 :: IsWordChar(t.pre[i]);
      assert forall c | c in t.post :: c != '-';
    }
  }

  lemma ArtifactSafe(t: Template, us: string)
    requires (WellNamed(t) || t == ENV_TEMPLATE) && IsStamp(us)
    ensures Safe(t.Name(us)) && TrimSpace(t.Name(us)) == t.Name(us)
  {
    var s := t.Name(us);
    NameChars(t, us);
    assert s[0] == t.pre[0];
    NoDoubleDot(t, us);
    NotPartial(t, us);
    TrimPlain(s);
  }

  lemma NameChars(t: Template, us: string)
    requires (WellNamed(t) || t == ENV_TEMPLATE) && IsStamp(us)
    ensures forall i | 0 <= i < |t.Name(us)| ::
              NameChar(t.Name(us)[i]) && (t.Name(us)[i] == '.' ==> i >= |t.pre| + 15)
  {
    var s := t.Name(us);
    if WellNamed(t) { assert forall i | 0 <= i < |t.pre| - 1 :: IsWordChar(t.pre[i]); }
    forall i | 0 <= i < |s| ensures NameChar(s[i]) && (s[i] == '.' ==> i >= |t.pre| + 15) {
      if i < |t.pre| { assert s[i] == t.pre[i]; }
      else if i < |t.pre| + 15 { assert s[i] == us[i - |t.pre|]; }
      else { assert s[i] == t.post[i - |t.pre| - 15]; }
    }
  }

  lemma NoDoubleDot(t: Template, us: string)
    requires (WellNamed(t) || t == ENV_TEMPLATE) && IsStamp(us)
    requires forall i | 0 <= i < |t.Name(us)| && t.Name(us)[i] == '.' :: i >= |t.pre| + 15
    ensures !Contains(t.Name(us), "..")
  {
    var s := t.Name(us);
    forall i: nat | i <= |s| ensures !OccursAt(s, "..", i) {
      OccursIff(s, "..", i);
      if i + 2 <= |s| && i >= |t.pre| + 15 {
        var j := i - |t.pre| - 15;
        assert s[i] == t.post[j] && s[i + 1] == t.post[j + 1];
        assert t.post[j] != '.' || t.post[j + 1] != '.';
      }
      assert ".."[0] == '.' && ".."[1] == '.';
    }
  }

  lemma NotPartial(t: Template, us: string)
    requires (WellNamed(t) || t == ENV_TEMPLATE) && IsStamp(us)
    ensures !HasSuffix(t.Name(us), ".partial")
  {
    var s := t.Name(us);
    assert s[|s| - 1] == if t.post == "" then us[14] else t.post[|t.post| - 1];
    SuffixIff(s, ".partial");
    assert ".partial"[7] == 'l';
  }

  lemma TrimPlain(s: string)
    requires s != "" && !IsSpace(s[0]) && !IsSpace(s[|s| - 1])
    ensures TrimSpace(s) == s
  {
  }

  /** What the directory holds besides artifacts and env copies: half-written dumps and the rollback
      record, in place or on its way. */
  predicate Other(names: seq<Template>, s: string) {
    || s == "images-before.json" || s == "images-before.json.tmp"
    || HasSuffix(s, ".partial")
  }

  /** A file some run wrote under its final name. */
  ghost predicate Artifact(names: seq<Template>, s: string) {
    exists t, us | (t in names || t == ENV_TEMPLATE) && IsStamp(us) :: s == t.Name(us)
  }

  ghost predicate ArtifactOf(names: seq<Template>, s: string, ts: string) {
    exists t | t in names || t == ENV_TEMPLATE :: s == t.Name(ts)
  }

  /** A name in which no dash is followed by a digit belongs to no set. */
  lemma NoStampedDash(s: string, ts: string)
    requires IsStamp(ts) && forall i | 0 <= i < |s| - 1 && s[i] == '-' :: !IsDigit(s[i + 1])
    ensures !OfSet(s, ts)
  {
    var sub := "-" + ts;
    assert sub[0] == '-' && sub[1] == ts[0];
    SuffixIff(s, sub);
    if |sub| <= |s| { assert s[|s| - |sub|] == '-' ==> !IsDigit(s[|s| - |sub| + 1]); }
    forall i: nat | i <= |s| ensures !OccursAt(s, "-" + ts + ".", i) {
      OccursIff(s, "-" + ts + ".", i);
      assert ("-" + ts + ".")[0] == '-' && ("-" + ts + ".")[1] == ts[0];
    }
  }

  lemma RecordDash(s: string)
    requires s == "images-before.json" || s == "images-before.json.tmp"
    ensures forall i | 0 <= i < |s| - 1 && s[i] == '-' :: !IsDigit(s[i + 1])
  {
  }

  lemma OtherNotChosen(names: seq<Template>, s: string, ts: string)
    requires Other(names, s) && IsStamp(ts)
    ensures !Wanted(s, ts)
  {
    if !HasSuffix(s, ".partial") {
      RecordDash(s);
      NoStampedDash(s, ts);
    }
  }

  /** The listing of a directory that holds only what runs, the env copy and the rollback record leave
      there: the files picked for a timestamp are exactly that run's artifacts and env copy. */
  lemma SetFilesPicksTheRun(names: seq<Template>, dir: seq<string>, ts: string, name: string)
    requires Apart(names) && IsStamp(ts) && dir != []
    requires forall s | s in dir :: '\n' !in s && (Artifact(names, s) || Other(names, s)) && TrimSpace(s) == s
    ensures name in Chosen(Split(Join(dir, '\n'), '\n'), ts) <==> name in dir && ArtifactOf(names, name, ts)
  {
    SplitJoin(dir, '\n');
    ChosenIff(dir, ts, name);
    assert forall l | l in dir :: TrimSpace(l) == l;
    if name in dir { FileChosenIff(names, name, ts); }
  }

  lemma FileChosenIff(names: seq<Template>, s: string, ts: string)
    requires Apart(names) && IsStamp(ts) && (Artifact(names, s) || Other(names, s))
    ensures Wanted(s, ts) <==> ArtifactOf(names, s, ts)
  {
    if ArtifactOf(names, s, ts) {
      var t :| (t in names || t == ENV_TEMPLATE) && s == t.Name(ts);
      WellNamedOneDash(t);
      OfSetIff(t, ts, ts);
      ArtifactSafe(t, ts);
    } else if Other(names, s) {
      OtherNotChosen(names, s, ts);
    } else {
      var t, us :| (t in names || t == ENV_TEMPLATE) && IsStamp(us) && s == t.Name(us);
      WellNamedOneDash(t);
      OfSetIff(t, us, ts);
    }
  }
}
