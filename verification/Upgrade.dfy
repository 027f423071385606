/**
 * `buildUpgradePlan` and `executeUpgradePlan` of scripts/selfhost-upgrade.ts: the
 * steps of an upgrade, and what is done when one of them fails.
 */
module Upgrade {
  import opened Common
  import opened UpgradeArgs

  /** The steps' labels. */
  datatype Title =
    | StopAppWrites | BackUp | PullImages | BuildImages | ApplyDatabaseUpgrade | RecreateApp | RunDoctor | RunSmokeTest
    | RestartPreviousApp | StopAfterFailure

  datatype CommandStep = CommandStep(title: Title, command: string, args: seq<string>)

  /** One call of the runner; a dry run only prints the command. */
  datatype Issued = Issued(step: CommandStep, dryRun: bool)

  // ---- the plan ----

  function Docker(o: Options, title: Title, args: seq<string>): CommandStep {
    CommandStep(title, "docker", ComposeArgs(o) + args)
  }

  function ImageStep(o: Options): CommandStep {
    if o.release then Docker(o, PullImages, ["pull", "deft", "upgrade", "doctor", "smoke"])
    else Docker(o, BuildImages, ["build", "deft", "upgrade", "doctor", "smoke"])
  }

  function Plan(o: Options): seq<CommandStep> {
    [Docker(o, StopAppWrites, ["stop", "deft"])]
    + (if o.backup then [CommandStep(BackUp, "pnpm", BackupArgs(o))] else [])
    + (if o.skipBuild then [] else [ImageStep(o)])
    + [Docker(o, ApplyDatabaseUpgrade, ["run", "--rm", "upgrade"])]
    + [Docker(o, RecreateApp, ["up", "-d", "--force-recreate", "deft"])]
    + (if o.skipDoctor then [] else [Docker(o, RunDoctor, ["run", "--rm", "doctor"])])
    + (if o.skipSmoke then [] else [Docker(o, RunSmokeTest, ["run", "--rm", "smoke"])])
  }

  method BuildUpgradePlan(o: Options) returns (steps: seq<CommandStep>)
    ensures steps == Plan(o)
  {
    hide ComposeArgs;
    steps := [Docker(o, StopAppWrites, ["stop", "deft"])];
    if o.backup {
      var args := BuildBackupArgs(o);
      steps := steps + [CommandStep(BackUp, "pnpm", args)];
    }
    if !o.skipBuild { steps := steps + [ImageStep(o)]; }
    steps := steps + [Docker(o, ApplyDatabaseUpgrade, ["run", "--rm", "upgrade"])];
    steps := steps + [Docker(o, RecreateApp, ["up", "-d", "--force-recreate", "deft"])];
    if !o.skipDoctor { steps := steps + [Docker(o, RunDoctor, ["run", "--rm", "doctor"])]; }
    if !o.skipSmoke { steps := steps + [Docker(o, RunSmokeTest, ["run", "--rm", "smoke"])]; }
  }

  /** Where the migration stands in the plan. */
  function MigrationIndex(o: Options): nat {
    1 + (if o.backup then 1 else 0) + (if o.skipBuild then 0 else 1)
  }

  lemma PlanShape(o: Options)
    ensures MigrationIndex(o) < |Plan(o)| && Plan(o)[0].title == StopAppWrites
    ensures o.backup ==> Plan(o)[1].title == BackUp
    ensures forall k | 0 <= k < |Plan(o)| :: Plan(o)[k].title == ApplyDatabaseUpgrade <==> k == MigrationIndex(o)
    ensures forall k | 0 <= k < |Plan(o)| :: Plan(o)[k].title == StopAppWrites <==> k == 0
    ensures forall k | 0 <= k < |Plan(o)| ::
      !Plan(o)[k].title.RestartPreviousApp? && !Plan(o)[k].title.StopAfterFailure?
  {
    hide ComposeArgs, BackupArgs;
  }

  predicate Present(o: Options, title: Title) {
    exists k :: 0 <= k < |Plan(o)| && Plan(o)[k].title == title
  }

  /** Where a step stands among the others. */
  function Rank(title: Title): nat {
    match title
    case StopAppWrites => 0
    case BackUp => 1
    case PullImages => 2
    case BuildImages => 2
    case ApplyDatabaseUpgrade => 3
    case RecreateApp => 4
    case RunDoctor => 5
    case RunSmokeTest => 6
    case RestartPreviousApp => 7
    case StopAfterFailure => 7
  }

  /** Every step's command. */
  lemma PlanCommands(o: Options, k: nat)
    requires k < |Plan(o)|
    ensures
      var (step, compose) := (Plan(o)[k], ComposeArgs(o));
      match step.title
      case StopAppWrites => step.command == "docker" && step.args == compose + ["stop", "deft"]
      case BackUp => step.command == "pnpm" && step.args == BackupArgs(o)
      case PullImages => step.command == "docker"
        && step.args == compose + ["pull", "deft", "upgrade", "doctor", "smoke"]
      case BuildImages => step.command == "docker"
        && step.args == compose + ["build", "deft", "upgrade", "doctor", "smoke"]
      case ApplyDatabaseUpgrade => step.command == "docker" && step.args == compose + ["run", "--rm", "upgrade"]
      case RecreateApp => step.command == "docker" && step.args == compose + ["up", "-d", "--force-recreate", "deft"]
      case RunDoctor => step.command == "docker" && step.args == compose + ["run", "--rm", "doctor"]
      case RunSmokeTest => step.command == "docker" && step.args == compose + ["run", "--rm", "smoke"]
      case _ => false
  {
    hide ComposeArgs, BackupArgs;
  }

  function Titles(o: Options): seq<Title> {
    [StopAppWrites] + (if o.backup then [BackUp] else [])
    + (if o.skipBuild then [] else if o.release then [PullImages] else [BuildImages])
    + [ApplyDatabaseUpgrade, RecreateApp]
    + (if o.skipDoctor then [] else [RunDoctor]) + (if o.skipSmoke then [] else [RunSmokeTest])
  }

  lemma PlanTitles(o: Options)
    ensures |Plan(o)| == |Titles(o)| && forall k | 0 <= k < |Plan(o)| :: Plan(o)[k].title == Titles(o)[k]
  {
    hide ComposeArgs, BackupArgs;
  }

  lemma TitlesAre(o: Options, title: Title)
    ensures title in Titles(o) <==>
            match title
            case StopAppWrites => true
            case BackUp => o.backup
            case PullImages => !o.skipBuild && o.release
            case BuildImages => !o.skipBuild && !o.release
            case ApplyDatabaseUpgrade => true
            case RecreateApp => true
            case RunDoctor => !o.skipDoctor
            case RunSmokeTest => !o.skipSmoke
            case _ => false
  {
    if title.BackUp? && o.backup { assert Titles(o)[1] == BackUp; }
  }

  lemma TitlesRanked(o: Options)
    ensures forall i, j | 0 <= i < j < |Titles(o)| :: Rank(Titles(o)[i]) < Rank(Titles(o)[j])
  {
  }

  lemma PresentIsListed(o: Options)
    ensures forall title :: Present(o, title) <==> title in Titles(o)
  {
    PlanTitles(o);
    hide Plan, Titles;
  }

  /** Which steps there are, and in which order. */
  lemma PlanOrder(o: Options, title: Title)
    ensures forall i, j | 0 <= i < j < |Plan(o)| :: Rank(Plan(o)[i].title) < Rank(Plan(o)[j].title)
    ensures Present(o, title) <==>
            match title
            case StopAppWrites => true
            case BackUp => o.backup
            case PullImages => !o.skipBuild && o.release
            case BuildImages => !o.skipBuild && !o.release
            case ApplyDatabaseUpgrade => true
            case RecreateApp => true
            case RunDoctor => !o.skipDoctor
            case RunSmokeTest => !o.skipSmoke
            case _ => false
  {
    hide Plan, Titles, Present;
    PlanTitles(o);
    TitlesRanked(o);
    PresentIsListed(o);
    TitlesAre(o, title);
  }

  // ---- running it ----

  function Restart(o: Options): Issued { Issued(Docker(o, RestartPreviousApp, ["start", "deft"]), false) }

  function StopAgain(o: Options): Issued { Issued(Docker(o, StopAfterFailure, ["stop", "deft"]), false) }

  /** The first `n` steps of the plan, issued. */
  function IssuedSteps(o: Options, n: nat): (r: seq<Issued>)
    requires n <= |Plan(o)|
    ensures |r| == n && forall i | 0 <= i < n :: r[i] == Issued(Plan(o)[i], o.dryRun)
  {
    seq(n, i requires 0 <= i < |Plan(o)| => Issued(Plan(o)[i], o.dryRun))
  }

  /** What the `catch` block issues when step `f` failed. */
  function Recovery(o: Options, f: nat): seq<Issued> {
    if o.dryRun || f == 0 then [] else if f < MigrationIndex(o) then [Restart(o)] else [StopAgain(o)]
  }

  ghost predicate FirstFailure(o: Options, fails: nat -> bool, f: nat) {
    f < |Plan(o)| && fails(f) && forall i | 0 <= i < f :: !fails(i)
  }

  /** Success and `log`, every call made in order, when `fails(i)` says whether the i-th call throws. */
  ghost predicate Outcome(o: Options, fails: nat -> bool, ok: bool, log: seq<Issued>) {
    && (ok <==> forall i | 0 <= i < |Plan(o)| :: !fails(i))
    && (ok ==> log == IssuedSteps(o, |Plan(o)|))
    && (!ok ==> exists f: nat :: FirstFailure(o, fails, f) && log == IssuedSteps(o, f + 1) + Recovery(o, f))
  }

  method ExecuteUpgradePlan(o: Options, fails: nat -> bool) returns (ok: bool, log: seq<Issued>)
    ensures Outcome(o, fails, ok, log)
  {
    hide Plan, Docker;
    PlanShape(o);
    var plan := BuildUpgradePlan(o);
    var appStopped, schemaMayHaveChanged := false, false;
    log := [];
    for i := 0 to |plan|
      invariant log == IssuedSteps(o, i)
      invariant forall j | 0 <= j < i :: !fails(j)
      invariant appStopped <==> i > 0 && !o.dryRun
      invariant schemaMayHaveChanged <==> i > MigrationIndex(o) && !o.dryRun
    {
      if plan[i].title == ApplyDatabaseUpgrade && !o.dryRun { schemaMayHaveChanged := true; }
      log := log + [Issued(plan[i], o.dryRun)];
      assert log == IssuedSteps(o, i + 1);
      if fails(i) {
        assert FirstFailure(o, fails, i);
        if appStopped && !schemaMayHaveChanged {
          log := log + [Issued(Docker(o, RestartPreviousApp, ["start", "deft"]), false)];
        } else if appStopped {
          log := log + [Issued(Docker(o, StopAfterFailure, ["stop", "deft"]), false)];
        }
        assert log == IssuedSteps(o, i + 1) + Recovery(o, i);
        return false, log;
      }
      if plan[i].title == StopAppWrites && !o.dryRun { appStopped := true; }
    }
    ok := true;
  }

  // ---- what the operator can rely on ----

  ghost predicate Began(log: seq<Issued>, title: Title) {
    exists i :: 0 <= i < |log| && log[i].step.title == title && !log[i].dryRun
  }

  lemma FailedAt(o: Options, fails: nat -> bool, log: seq<Issued>) returns (f: nat)
    requires Outcome(o, fails, false, log)
    ensures FirstFailure(o, fails, f) && log == IssuedSteps(o, f + 1) + Recovery(o, f)
  {
    f :| FirstFailure(o, fails, f) && log == IssuedSteps(o, f + 1) + Recovery(o, f);
  }

  /** Which titles a failed log shows as really begun. */
  lemma FailedTitles(o: Options, f: nat)
    requires f < |Plan(o)|
    ensures var log := IssuedSteps(o, f + 1) + Recovery(o, f);
      && (Began(log, ApplyDatabaseUpgrade) <==> !o.dryRun && f >= MigrationIndex(o))
      && (Began(log, RestartPreviousApp) <==> !o.dryRun && 0 < f < MigrationIndex(o))
  {
    hide Plan, ComposeArgs;
    PlanShape(o);
    var log := IssuedSteps(o, f + 1) + Recovery(o, f);
    if !o.dryRun && f >= MigrationIndex(o) { assert log[MigrationIndex(o)].step.title == ApplyDatabaseUpgrade; }
    if !o.dryRun && 0 < f < MigrationIndex(o) { assert log[f + 1] == Restart(o); }
  }

  lemma SuccessTitles(o: Options)
    ensures !Began(IssuedSteps(o, |Plan(o)|), RestartPreviousApp)
  {
    hide Plan, ComposeArgs;
    PlanShape(o);
  }

  /**
   * The old container is started again exactly when a real run fails after the
   * app was stopped and before migration began, and then it is the last command.
   */
  lemma RestartExactlyBeforeMigration(o: Options, fails: nat -> bool, ok: bool, log: seq<Issued>)
    requires Outcome(o, fails, ok, log)
    ensures Began(log, RestartPreviousApp) <==> !ok && !o.dryRun && !fails(0) && !Began(log, ApplyDatabaseUpgrade)
    ensures Began(log, RestartPreviousApp) ==>
      log[|log| - 1] == Issued(CommandStep(RestartPreviousApp, "docker", ComposeArgs(o) + ["start", "deft"]), false)
  {
    hide Plan, ComposeArgs, Began;
    if ok {
      SuccessTitles(o);
    } else {
      var f := FailedAt(o, fails, log);
      FailedTitles(o, f);
    }
  }

  predicate EndsIn(args: seq<string>, tail: seq<string>) {
    |args| >= |tail| && args[|args| - |tail|..] == tail
  }

  ghost predicate SomeEndsIn(log: seq<Issued>, from: nat, tail: seq<string>) {
    exists i :: from <= i < |log| && EndsIn(log[i].step.args, tail)
  }

  lemma TailIs(args: seq<string>, own: seq<string>, tail: seq<string>)
    requires |own| >= 2 && |tail| == 2
    ensures EndsIn(args + own, tail) <==> own[|own| - 2..] == tail
  {
    assert (args + own)[|args + own| - 2..] == own[|own| - 2..];
  }

  lemma BackupTail(o: Options)
    ensures |BackupArgs(o)| >= 2 && BackupArgs(o)[|BackupArgs(o)| - 2] == "--backup-dir"
  {
  }

  /** No step starts the app, and only the first stops it. */
  lemma StepTails(o: Options, k: nat)
    requires k < |Plan(o)|
    ensures !EndsIn(Plan(o)[k].args, ["start", "deft"])
    ensures EndsIn(Plan(o)[k].args, ["stop", "deft"]) <==> k == 0
  {
    PlanCommands(o, k);
    PlanShape(o);
    BackupTail(o);
    hide Plan, ComposeArgs, BackupArgs;
    var step := Plan(o)[k];
    if step.title != BackUp {
      var n := |ComposeArgs(o)|;
      assert step.args == ComposeArgs(o) + step.args[n..];
      TailIs(ComposeArgs(o), step.args[n..], ["start", "deft"]);
      TailIs(ComposeArgs(o), step.args[n..], ["stop", "deft"]);
    }
  }

  /**
   * In the commands themselves: the app is started again exactly when a real run
   * failed after stop and before migration, by the last command and no other.
   */
  lemma StartIsTheRestart(o: Options, fails: nat -> bool, ok: bool, log: seq<Issued>)
    requires Outcome(o, fails, ok, log)
    ensures SomeEndsIn(log, 0, ["start", "deft"]) <==>
      !ok && !o.dryRun && !fails(0) && !Began(log, ApplyDatabaseUpgrade)
    ensures forall i | 0 <= i < |log| && EndsIn(log[i].step.args, ["start", "deft"]) ::
      && i == |log| - 1 && !log[i].dryRun
      && log[i].step.command == "docker" && log[i].step.args == ComposeArgs(o) + ["start", "deft"]
  {
    forall k | 0 <= k < |Plan(o)| ensures !EndsIn(Plan(o)[k].args, ["start", "deft"]) { StepTails(o, k); }
    if !ok {
      var f := FailedAt(o, fails, log);
      FailedTitles(o, f);
      RecoveryTails(o, f);
      hide Plan, ComposeArgs, Began, EndsIn;
      if Recovery(o, f) != [] { assert log[f + 1] == Recovery(o, f)[0]; }
    }
    hide Plan, ComposeArgs, Began, EndsIn;
  }

  /**
   * And the app is stopped a second time exactly when a real run failed after
   * migration began, by the last command and no other.
   */
  lemma SecondStopIsRecovery(o: Options, fails: nat -> bool, ok: bool, log: seq<Issued>)
    requires Outcome(o, fails, ok, log)
    ensures SomeEndsIn(log, 1, ["stop", "deft"]) <==> !ok && !o.dryRun && Began(log, ApplyDatabaseUpgrade)
    ensures forall i | 1 <= i < |log| && EndsIn(log[i].step.args, ["stop", "deft"]) ::
      && i == |log| - 1 && !log[i].dryRun
      && log[i].step.command == "docker" && log[i].step.args == ComposeArgs(o) + ["stop", "deft"]
  {
    forall k | 1 <= k < |Plan(o)| ensures !EndsIn(Plan(o)[k].args, ["stop", "deft"]) { StepTails(o, k); }
    if !ok {
      var f := FailedAt(o, fails, log);
      FailedTitles(o, f);
      RecoveryTails(o, f);
      hide Plan, ComposeArgs, Began, EndsIn;
      if Recovery(o, f) != [] { assert log[f + 1] == Recovery(o, f)[0]; }
    }
    hide Plan, ComposeArgs, Began, EndsIn;
  }

  lemma RecoveryTails(o: Options, f: nat)
    ensures
      var (r, compose) := (Recovery(o, f), ComposeArgs(o));
      if o.dryRun || f == 0 then r == []
      else
        && |r| == 1 && !r[0].dryRun && r[0].step.command == "docker"
        && r[0].step.args == compose + (if f < MigrationIndex(o) then ["start", "deft"] else ["stop", "deft"])
        && (EndsIn(r[0].step.args, ["start", "deft"]) <==> f < MigrationIndex(o))
        && (EndsIn(r[0].step.args, ["stop", "deft"]) <==> f >= MigrationIndex(o))
  {
    TailIs(ComposeArgs(o), ["start", "deft"], ["start", "deft"]);
    TailIs(ComposeArgs(o), ["start", "deft"], ["stop", "deft"]);
    TailIs(ComposeArgs(o), ["stop", "deft"], ["start", "deft"]);
    TailIs(ComposeArgs(o), ["stop", "deft"], ["stop", "deft"]);
    hide ComposeArgs;
  }

  /** A failure after migration began leaves `stop` as the last command issued. */
  lemma FailureAfterMigrationStops(o: Options, fails: nat -> bool, log: seq<Issued>)
    requires Outcome(o, fails, false, log) && Began(log, ApplyDatabaseUpgrade)
    ensures log != []
    ensures log[|log| - 1] == Issued(CommandStep(StopAfterFailure, "docker", ComposeArgs(o) + ["stop", "deft"]), false)
  {
    hide Plan, ComposeArgs, Began;
    var f := FailedAt(o, fails, log);
    FailedTitles(o, f);
  }

  /** Migration begins only after stop, and any enabled backup, succeeded. */
  lemma MigrationNeedsStopAndBackup(o: Options, fails: nat -> bool, ok: bool, log: seq<Issued>)
    requires Outcome(o, fails, ok, log) && Began(log, ApplyDatabaseUpgrade)
    ensures |log| > 1 && log[0] == Issued(Docker(o, StopAppWrites, ["stop", "deft"]), false) && !fails(0)
    ensures o.backup ==> log[1].step == CommandStep(BackUp, "pnpm", BackupArgs(o)) && !log[1].dryRun && !fails(1)
  {
    hide ComposeArgs, BackupArgs;
    PlanShape(o);
    PlanStart(o);
    hide Plan;
  }

  lemma PlanStart(o: Options)
    ensures |Plan(o)| > 1 && Plan(o)[0] == Docker(o, StopAppWrites, ["stop", "deft"])
    ensures o.backup ==> Plan(o)[1] == CommandStep(BackUp, "pnpm", BackupArgs(o))
  {
    hide ComposeArgs, BackupArgs;
  }

  /** A dry run issues no real command, whatever fails. */
  lemma DryRunIssuesNothing(o: Options, fails: nat -> bool, ok: bool, log: seq<Issued>)
    requires Outcome(o, fails, ok, log) && o.dryRun
    ensures forall i | 0 <= i < |log| :: log[i].dryRun
  {
    hide Plan, ComposeArgs;
  }
}
