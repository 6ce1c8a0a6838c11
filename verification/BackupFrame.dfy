/** What a backup does beside the strategies' own artifacts: every other file of the directory it leaves as it
    was, wherever it stops, and the copies of the env file it keeps like a set's. */
module BackupFrame {
  import opened Text
  import opened BackupNames
  import opened BackupSteps
  import opened BackupSkips

  /** A name that is no artifact, no env copy and no half-written file of this run, such as that of the
      rollback record, which lies in the same directory. */
  predicate Foreign(c: Config, ts: string, n: string) {
    && !ENV_TEMPLATE.Matches(n)
    && forall i | 0 <= i < |c.names| :: !T(c, i).Matches(n) && n != T(c, i).Partial(ts)
  }

  predicate SameFile(a: map<string, File>, b: map<string, File>, n: string) {
    (n in a <==> n in b) && (n in a ==> a[n] == b[n])
  }

  lemma LineLeaves(c: Config, d: Disk, ts: string, line: Line, f: Fate, n: string)
    requires Apart(c.names) && Foreign(c, ts, n)
    ensures SameFile(d.files, LineSpec(c, d, ts, line, f).files, n)
  {
    match line
    case Dump(i) =>
    case Rename(i) =>
      if i < |c.names| { NameFacts(c, i, i, ts, ts); }
    case CopyEnv(there) =>
      assert ENV_TEMPLATE.Matches(ENV_TEMPLATE.Name(ts));
    case Prune(i) =>
    case _ =>
  }

  lemma {:induction false} LinesLeave(c: Config, d: Disk, ts: string, lines: seq<Line>, fates: seq<Fate>, n: string)
    requires Apart(c.names) && Foreign(c, ts, n)
    ensures SameFile(d.files, LinesSpec(c, d, ts, lines, fates).files, n)
    decreases |lines|
  {
    if lines != [] && fates != [] {
      LineLeaves(c, d, ts, lines[0], fates[0], n);
      if fates[0].Done? { LinesLeave(c, LineSpec(c, d, ts, lines[0], fates[0]), ts, lines[1..], fates[1..], n); }
    }
  }

  /** No backup, wherever it stops, writes, moves or prunes a file that is not its own, whatever strategies
      it runs. */
  lemma OtherFilesStay(c: Config, d: Disk, ts: string, ran: seq<nat>, envThere: bool, fates: seq<Fate>, n: string)
    requires Apart(c.names) && Foreign(c, ts, n)
    ensures SameFile(d.files, LinesSpec(c, d.(past := d.past + [ts]), ts, Script(c, ran, envThere), fates).files, n)
  {
    LinesLeave(c, d.(past := d.past + [ts]), ts, Script(c, ran, envThere), fates, n);
  }

  // ----- the copies of the env file -----

  /** Every line but the copy of the env file and the prune of those leaves them alone. */
  lemma EnvLine(c: Config, d: Disk, ts: string, line: Line)
    requires Apart(c.names) && !line.CopyEnv? && !line.PruneEnv?
    ensures var d' := LineSpec(c, d, ts, line, Done);
            View(d'.files, ENV_TEMPLATE) == View(d.files, ENV_TEMPLATE) && d'.clock >= d.clock
  {
    match line
    case Dump(i) =>
      if i < |c.names| {
        NotEnvNames(c, i, ts);
        OthersComeAndGo(d.files, ENV_TEMPLATE, T(c, i).Partial(ts), File(d.clock, true), {});
      }
    case Rename(i) =>
      if i < |c.names| && T(c, i).Partial(ts) in d.files {
        NotEnvNames(c, i, ts);
        var p := T(c, i).Partial(ts);
        OthersComeAndGo(d.files, ENV_TEMPLATE, T(c, i).Name(ts), d.files[p], {});
        OthersComeAndGo(d.files[T(c, i).Name(ts) := d.files[p]], ENV_TEMPLATE, p, d.files[p], {p});
      }
    case Prune(i) =>
      if i < |c.names| {
        var b := Beyond(d.files, T(c, i), Keep(c));
        forall n | n in b ensures !ENV_TEMPLATE.Matches(n) { NotEnv(T(c, i), n); }
        NotEnvNames(c, i, ts);
        OthersComeAndGo(d.files, ENV_TEMPLATE, T(c, i).Partial(ts), File(0, true), b);
      }
    case _ =>
  }

  lemma NotEnvNames(c: Config, i: nat, ts: string)
    requires Apart(c.names) && i < |c.names|
    ensures !ENV_TEMPLATE.Matches(T(c, i).Name(ts)) && !ENV_TEMPLATE.Matches(T(c, i).Partial(ts))
  {
    var t := T(c, i);
    assert t.Name(ts)[0] == t.pre[0] && t.Partial(ts)[0] == t.pre[0];
    Ends(ENV_TEMPLATE, t.Name(ts));
    Ends(ENV_TEMPLATE, t.Partial(ts));
  }

  predicate NoEnvLines(lines: seq<Line>) { forall l | l in lines :: !l.CopyEnv? && !l.PruneEnv? }

  lemma {:induction false} EnvLines(c: Config, d: Disk, ts: string, lines: seq<Line>)
    requires Apart(c.names) && NoEnvLines(lines)
    ensures var d' := DoneSpec(c, d, ts, lines);
            View(d'.files, ENV_TEMPLATE) == View(d.files, ENV_TEMPLATE) && d'.clock >= d.clock
    decreases |lines|
  {
    if lines != [] {
      assert lines[0] in lines && forall l | l in lines[1..] :: l in lines;
      EnvLine(c, d, ts, lines[0]);
      EnvLines(c, LineSpec(c, d, ts, lines[0], Done), ts, lines[1..]);
    }
  }

  lemma {:induction false} NoEnvInDumps(ran: seq<nat>)
    ensures NoEnvLines(Dumps(ran)) && NoEnvLines(Prunes(ran))
    decreases |ran|
  {
    if ran != [] { NoEnvInDumps(ran[1..]); }
  }

  /** What a run in which nothing goes wrong leaves of the env copies: those there were and, if there is an env
      file to copy, this run's, each of them that is among the newest as many as are kept. */
  lemma EnvView(c: Config, d: Disk, ts: string, ran: seq<nat>, envThere: bool) returns (m: nat)
    requires Apart(c.names)
    ensures m >= d.clock
    ensures var was := View(d.files, ENV_TEMPLATE);
            View(DoneSpec(c, d, ts, Script(c, ran, envThere)).files, ENV_TEMPLATE)
            == Kept(if c.hasEnv && envThere then was[ENV_TEMPLATE.Name(ts) := m] else was, Keep(c))
  {
    var env := if c.hasEnv then [CopyEnv(envThere)] else [];
    var d1 := DoneSpec(c, d, ts, [MkDir]);
    var d2 := DoneSpec(c, d1, ts, Dumps(ran));
    var d3 := DoneSpec(c, d2, ts, env);
    var d4 := DoneSpec(c, d3, ts, Prunes(ran));
    ScriptParts(c, d, ts, ran, envThere);
    NoEnvInDumps(ran);
    EnvLines(c, d, ts, [MkDir]);
    EnvLines(c, d1, ts, Dumps(ran));
    m := d2.clock;
    EnvCopy(c, d2, ts, env, envThere);
    EnvLines(c, d3, ts, Prunes(ran));
    EnvPrune(c, d4, ts);
  }

  lemma EnvCopy(c: Config, d: Disk, ts: string, env: seq<Line>, envThere: bool)
    requires env == if c.hasEnv then [CopyEnv(envThere)] else []
    ensures var was := View(d.files, ENV_TEMPLATE);
            View(DoneSpec(c, d, ts, env).files, ENV_TEMPLATE)
            == if c.hasEnv && envThere then was[ENV_TEMPLATE.Name(ts) := d.clock] else was
  {
    if c.hasEnv {
      assert env[1..] == [] && ENV_TEMPLATE.Matches(ENV_TEMPLATE.Name(ts));
      assert DoneSpec(c, d, ts, env) == LineSpec(c, d, ts, CopyEnv(envThere), Done);
    }
  }

  lemma EnvPrune(c: Config, d: Disk, ts: string)
    ensures View(DoneSpec(c, d, ts, [PruneEnv, Report]).files, ENV_TEMPLATE)
            == Kept(View(d.files, ENV_TEMPLATE), Keep(c))
  {
    PruneView(d.files, ENV_TEMPLATE, Keep(c));
    var lines := [PruneEnv, Report];
    assert lines[1..] == [Report] && lines[1..][1..] == [];
    var d1 := LineSpec(c, d, ts, PruneEnv, Done);
    assert DoneSpec(c, d, ts, lines) == DoneSpec(c, d1, ts, [Report]) == DoneSpec(c, d1, ts, []);
  }


  /** A backup of a stack with an env file, nothing going wrong, leaves this run's copy of it; of the earlier
      copies it prunes exactly those that as many newer ones push out. */
  lemma EnvIsCopied(c: Config, d: Disk, ts: string, ran: seq<nat>, envThere: bool, fates: seq<Fate>, n: string)
    requires Inv(c, d) && c.hasEnv && envThere
    requires AllDone(fates) && |fates| >= |Script(c, ran, envThere)|
    requires ENV_TEMPLATE.Name(ts) !in d.files
    ensures var files := LinesSpec(c, d.(past := d.past + [ts]), ts, Script(c, ran, envThere), fates).files;
            && ENV_TEMPLATE.Name(ts) in files
            && (n in d.files && ENV_TEMPLATE.Matches(n) ==>
                  (n in files <==> |Newer(d.files, ENV_TEMPLATE, n)| + 1 < if c.keepField > 0 then c.keepField else 14))
  {
    var d0 := d.(past := d.past + [ts]);
    var was, own := View(d.files, ENV_TEMPLATE), ENV_TEMPLATE.Name(ts);
    DoneIs(c, d0, ts, Script(c, ran, envThere), fates);
    var m := EnvView(c, d0, ts, ran, envThere);
    var v := was[own := m];
    assert forall x | x in was :: was[x] < m;
    assert NewerIn(v, own) == {};
    var after := View(DoneSpec(c, d0, ts, Script(c, ran, envThere)).files, ENV_TEMPLATE);
    assert own in after;
    if n in was {
      OneNewer(was, n, own, m);
      SameNewer(d.files, ENV_TEMPLATE, n);
      assert n in after <==> |NewerIn(v, n)| < Keep(c);
    }
  }
}
