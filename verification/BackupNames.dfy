/** The names a backup set is known by: internal/backup's artifacts, and the shell globs that prune and
    restore select them with. */
module BackupNames {
  import opened Text

  datatype Kind = PostgresContainer | PostgresRemote | Command | Files

  predicate IsPostgres(k: Kind) { k.PostgresContainer? || k.PostgresRemote? }

  /** A file name with "$ts" left open in it. */
  datatype Template = Template(pre: string, post: string) {
    function Name(ts: string): string { pre + ts + post }

    function Partial(ts: string): string { Name(ts) + ".partial" }

    /** The glob with "*" for "$ts". */
    predicate Matches(name: string) {
      |name| >= |pre| + |post| && pre <= name && HasSuffix(name, post)
    }
  }

  const ENV_TEMPLATE := Template("env-", "")

  /** A timestamp as date +%Y%m%d-%H%M%S prints it. */
  predicate IsStamp(ts: string) {
    |ts| == 15 && ts[8] == '-' && forall i | 0 <= i < 15 && i != 8 :: IsDigit(ts[i])
  }

  function TemplateOf(kinds: seq<Kind>, i: nat): Template
    requires i < |kinds|
  {
    match kinds[i]
    case Files => Template("files" + Decimal(i) + "-", ".tar.gz")
    case Command => Template("cmd" + Decimal(i) + "-", ".out")
    case _ =>
      if forall j | 0 <= j < i :: !IsPostgres(kinds[j]) then Template("db-", ".dump")
      else Template("db" + Decimal(i) + "-", ".dump")
  }

  /** artifacts: the slots filled in order, the first postgres strategy keeping the old name. */
  method Artifacts(kinds: seq<Kind>) returns (out: array<Template>)
    ensures fresh(out) && out.Length == |kinds|
    ensures forall i | 0 <= i < |kinds| :: out[i] == TemplateOf(kinds, i)
  {
    out := new Template[|kinds|];
    var firstPG := true;
    for i := 0 to |kinds|
      invariant forall j | 0 <= j < i :: out[j] == TemplateOf(kinds, j)
      invariant firstPG <==> forall j | 0 <= j < i :: !IsPostgres(kinds[j])
    {
      match kinds[i]
      case Files =>
        out[i] := Template("files" + Decimal(i) + "-", ".tar.gz");
      case Command =>
        out[i] := Template("cmd" + Decimal(i) + "-", ".out");
      case _ =>
        if firstPG {
          out[i] := Template("db-", ".dump");
          firstPG := false;
        } else {
          out[i] := Template("db" + Decimal(i) + "-", ".dump");
        }
    }
  }

  predicate IsWordChar(c: char) { IsDigit(c) || 'a' <= c <= 'z' }

  /** letters and digits, then one dash */
  predicate WellNamed(t: Template) {
    && |t.pre| >= 3 && t.pre[|t.pre| - 1] == '-'
    && (forall i | 0 <= i < |t.pre| - 1 :: IsWordChar(t.pre[i]))
    && !IsDigit(t.pre[0])
    && (t.post == ".dump" || t.post == ".tar.gz" || t.post == ".out") && t.pre[0] != 'e'
  }

  /** Templates as artifacts() makes them: distinct in front. */
  predicate Apart(names: seq<Template>) {
    && (forall i | 0 <= i < |names| :: WellNamed(names[i]))
    && (forall i, j | 0 <= i < j < |names| :: names[i].pre != names[j].pre)
  }

  lemma TemplateWellNamed(kinds: seq<Kind>, i: nat)
    requires i < |kinds|
    ensures WellNamed(TemplateOf(kinds, i))
  {
    var d := Decimal(i);
    assert forall k | 0 <= k < |d| :: IsWordChar(d[k]);
  }

  lemma NumberDecides(base: string, i: nat, j: nat)
    ensures base + Decimal(i) + "-" == base + Decimal(j) + "-" <==> i == j
  {
    var a, b := base + Decimal(i) + "-", base + Decimal(j) + "-";
    assert a[|base|..|a| - 1] == Decimal(i) && b[|base|..|b| - 1] == Decimal(j);
    assert NumeralValue(Decimal(i)) == i && NumeralValue(Decimal(j)) == j;
  }

  /** The letters in front of the number: none of these is followed by another's letter. */
  function Base(kinds: seq<Kind>, i: nat): string
    requires i < |kinds|
  {
    match kinds[i]
    case Files => "files"
    case Command => "cmd"
    case _ => if forall j | 0 <= j < i :: !IsPostgres(kinds[j]) then "db-" else "db"
  }

  lemma PreIs(kinds: seq<Kind>, i: nat)
    requires i < |kinds|
    ensures TemplateOf(kinds, i).pre == if Base(kinds, i) == "db-" then "db-" else Base(kinds, i) + Decimal(i) + "-"
  {
  }

  /** A front by its letters: the first, the third, and whether a number follows "db". */
  lemma BasesApart(a: string, b: string, m: string, n: string)
    requires a == "files" || a == "cmd" || a == "db" || a == "db-"
    requires b == "files" || b == "cmd" || b == "db" || b == "db-"
    requires a != b && AllDigits(m) && AllDigits(n) && |m| > 0 && |n| > 0
    ensures (if a == "db-" then a else a + m + "-") != (if b == "db-" then b else b + n + "-")
  {
    var x, y := if a == "db-" then a else a + m + "-", if b == "db-" then b else b + n + "-";
    assert x[0] == a[0] && y[0] == b[0];
    if a[0] == b[0] { assert (a == "db" ==> x[2] == m[0]) && (b == "db" ==> y[2] == n[0]); }
  }

  lemma PreDecides(kinds: seq<Kind>, i: nat, j: nat)
    requires i < |kinds| && j < |kinds|
    ensures TemplateOf(kinds, i).pre == TemplateOf(kinds, j).pre <==> i == j
  {
    var a, b := Base(kinds, i), Base(kinds, j);
    PreIs(kinds, i);
    PreIs(kinds, j);
    if a != b {
      BasesApart(a, b, Decimal(i), Decimal(j));
    } else if a != "db-" {
      NumberDecides(a, i, j);
    }
  }

  /** The only dash of a template's front is its last letter. */
  lemma DashEndsPre(t: Template, name: string)
    requires WellNamed(t) && t.pre <= name
    ensures IndexOf(name, '-') == |t.pre| - 1
  {
    assert forall k | 0 <= k < |t.pre| :: t.pre[k] == name[k];
    IndexOfIs(name, '-', |t.pre| - 1);
  }

  /** A name is matched by a template only with that template's letters in front. */
  lemma MatchNeedsPre(t: Template, u: Template, rest: string)
    requires WellNamed(t) && WellNamed(u) && t.Matches(u.pre + rest)
    ensures t.pre == u.pre
  {
    var name := u.pre + rest;
    DashEndsPre(t, name);
    DashEndsPre(u, name);
    assert t.pre == name[..|t.pre|] && u.pre == name[..|u.pre|];
  }

  lemma Ends(t: Template, name: string)
    ensures t.Matches(name) && t.pre != "" ==> name != "" && name[0] == t.pre[0]
    ensures t.Matches(name) && t.post != "" ==> name != "" && name[|name| - 1] == t.post[|t.post| - 1]
  {
  }

  lemma PartialNeverMatches(t: Template, name: string)
    requires WellNamed(t)
    ensures !t.Matches(name + ".partial")
  {
    var p := name + ".partial";
    assert p[|p| - 1] == 'l';
    Ends(t, p);
  }

  /** Of two templates told apart by their fronts, each one's pattern picks out its own finished names,
      at any timestamp, and never a partial one. */
  lemma PicksOwn(t: Template, u: Template, ts: string)
    requires WellNamed(t) && WellNamed(u) && (t.pre == u.pre ==> t == u)
    ensures (t.Matches(u.Name(ts)) <==> t == u) && !t.Matches(u.Partial(ts))
  {
    PartialNeverMatches(t, u.Name(ts));
    assert u.Name(ts) == u.pre + (ts + u.post);
    if t == u {
      assert u.Name(ts)[|u.Name(ts)| - |u.post|..] == u.post;
    } else {
      if t.Matches(u.Name(ts)) { MatchNeedsPre(t, u, ts + u.post); }
    }
  }

  /** Env copies and artifacts never match each other's patterns. */
  lemma EnvApart(t: Template, ts: string)
    requires WellNamed(t)
    ensures !t.Matches(ENV_TEMPLATE.Name(ts))
    ensures !ENV_TEMPLATE.Matches(t.Name(ts)) && !ENV_TEMPLATE.Matches(t.Partial(ts))
  {
    Ends(t, ENV_TEMPLATE.Name(ts));
    Ends(ENV_TEMPLATE, t.Name(ts));
    Ends(ENV_TEMPLATE, t.Partial(ts));
  }

  /** No two templates, and no two runs, ever write the same name. */
  lemma SameNameIff(t: Template, u: Template, ts: string, us: string)
    requires WellNamed(t) && WellNamed(u) && (t.pre == u.pre ==> t == u) && |ts| == |us|
    ensures t.Name(ts) == u.Name(us) <==> t == u && ts == us
  {
    if t.Name(ts) == u.Name(us) {
      PicksOwn(t, u, us);
      PicksOwn(t, t, ts);
      assert t.Name(ts)[|t.pre|..|t.pre| + |ts|] == ts && t.Name(us)[|t.pre|..|t.pre| + |us|] == us;
    }
  }

  function NamesOf(kinds: seq<Kind>): (names: seq<Template>)
    ensures |names| == |kinds| && forall i | 0 <= i < |kinds| :: names[i] == TemplateOf(kinds, i)
  {
    seq(|kinds|, i requires 0 <= i < |kinds| => TemplateOf(kinds, i))
  }

  lemma NamesOfApart(kinds: seq<Kind>)
    ensures Apart(NamesOf(kinds))
  {
    forall i | 0 <= i < |kinds| ensures WellNamed(NamesOf(kinds)[i]) { TemplateWellNamed(kinds, i); }
    forall i, j | 0 <= i < j < |kinds| ensures NamesOf(kinds)[i].pre != NamesOf(kinds)[j].pre { PreDecides(kinds, i, j); }
  }

  /** Retention and restore select by pattern. For every list of strategies, strategy i's pattern picks
      out, among everything any run of any strategy ever writes, exactly strategy i's finished
      artifacts; and two artifacts share a name only if they are the same one of the same run. */
  lemma GlobPicksOwn(kinds: seq<Kind>, i: nat, j: nat, ts: string, us: string)
    requires i < |kinds| && j < |kinds| && |ts| == |us|
    ensures var t, u := TemplateOf(kinds, i), TemplateOf(kinds, j);
            && (t.Matches(u.Name(ts)) <==> i == j) && !t.Matches(u.Partial(ts))
            && (t.Name(ts) == u.Name(us) <==> i == j && ts == us)
  {
    TemplateWellNamed(kinds, i);
    TemplateWellNamed(kinds, j);
    PreDecides(kinds, i, j);
    PicksOwn(TemplateOf(kinds, i), TemplateOf(kinds, j), ts);
    SameNameIff(TemplateOf(kinds, i), TemplateOf(kinds, j), ts, us);
  }

  // ----- reading the timestamp back out of a name: grep -oE '[0-9]{8}-[0-9]{6}' | head -1 -----

  predicate StampAt(s: string, k: nat) { k + 15 <= |s| && IsStamp(s[k..k + 15]) }

  function StampFrom(s: string, k: nat): Option<string>
    decreases |s| - k
  {
    if k + 15 > |s| then None
    else if StampAt(s, k) then Some(s[k..k + 15])
    else StampFrom(s, k + 1)
  }

  /** The leftmost timestamp in a file name. */
  function StampOf(s: string): Option<string> { StampFrom(s, 0) }

  lemma {:induction false} StampFromAt(s: string, k: nat, m: nat)
    requires k <= m && StampAt(s, m)
    requires forall j | k <= j < m :: !StampAt(s, j)
    ensures StampFrom(s, k) == Some(s[m..m + 15])
    decreases m - k
  {
    if k < m { StampFromAt(s, k + 1, m); }
  }

  /** An index of eight digits would be read as a date. */
  predicate Short(t: Template) {
    |t.pre| >= 9 ==> !AllDigits(t.pre[|t.pre| - 9..|t.pre| - 1])
  }

  lemma NumberShort(base: string, d: string)
    requires |d| < 8 && base != "" && !IsDigit(base[|base| - 1])
    ensures var p := base + d + "-"; |p| >= 9 ==> !AllDigits(p[|p| - 9..|p| - 1])
  {
    var p, k := base + d + "-", |base| - 1;
    if |p| >= 9 { assert p[|p| - 9..|p| - 1][k - (|p| - 9)] == p[k] == base[k]; }
  }

  lemma TemplateShort(kinds: seq<Kind>, i: nat)
    requires i < |kinds| && |Decimal(i)| < 8
    ensures Short(TemplateOf(kinds, i))
  {
    PreIs(kinds, i);
    NumberShort(Base(kinds, i), Decimal(i));
  }

  /** The stamp read back from an artifact's name is the one it was made with. */
  lemma StampOfName(t: Template, ts: string)
    requires WellNamed(t) && Short(t) && IsStamp(ts)
    ensures StampOf(t.Name(ts)) == Some(ts)
  {
    var s, m := t.Name(ts), |t.pre|;
    assert s[m..m + 15] == ts;
    forall j: nat | 0 <= j < m ensures !StampAt(s, j) { NoStampBefore(t, ts, j); }
    StampFromAt(s, 0, m);
  }

  lemma NoStampBefore(t: Template, ts: string, j: nat)
    requires WellNamed(t) && Short(t) && j < |t.pre|
    ensures !StampAt(t.Name(ts), j)
  {
    var s, m := t.Name(ts), |t.pre|;
    if j + 15 <= |s| {
      var w := s[j..j + 15];
      assert forall k | 0 <= k < 15 && j + k < m :: w[k] == t.pre[j + k];
      if m - 1 - j < 8 {
        assert w[m - 1 - j] == '-';
      } else if m - 1 - j == 8 {
        var k :| 0 <= k < 8 && !IsDigit(t.pre[m - 9..m - 1][k]);
        assert w[k] == t.pre[m - 9 + k];
      } else {
        assert w[8] == t.pre[j + 8] != '-';
      }
    }
  }
}
