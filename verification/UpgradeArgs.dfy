/**
 * The argument parsers of scripts/selfhost-upgrade.ts and
 * scripts/selfhost-backup.ts, and the arguments the first prints for the second.
 */
module UpgradeArgs {
  import opened Common

  datatype Options = Options(
    prod: bool, release: bool, composeFiles: seq<string>, backup: bool, backupDir: string,
    skipBuild: bool, skipDoctor: bool, skipSmoke: bool, dryRun: bool)

  datatype BackupOptions = BackupOptions(
    prod: bool, composeFiles: seq<string>, backupDir: string, appStopped: bool, dryRun: bool)

  const DEFAULTS := Options(false, false, [], true, "backups", false, false, false, false)
  const BACKUP_DEFAULTS := BackupOptions(false, [], "backups", false, false)

  // ---- compose and backup arguments ----

  /** `files.flatMap((file) => [flag, file])`. */
  function Each(flag: string, files: seq<string>): seq<string> {
    if files == [] then [] else [flag, files[0]] + Each(flag, files[1..])
  }

  function ComposeArgs(o: Options): seq<string> {
    ["compose"] + Each("-f", ["docker-compose.yml"] + (if o.prod then ["compose.prod.yml"] else [])
                             + (if o.release then ["compose.release.yml"] else []) + o.composeFiles)
  }

  function BackupComposeArgs(o: BackupOptions): seq<string> {
    ["compose"] + Each("-f", ["docker-compose.yml"] + (if o.prod then ["compose.prod.yml"] else []) + o.composeFiles)
  }

  function BackupArgs(o: Options): seq<string> {
    ["selfhost:backup", "--app-stopped"] + (if o.prod then ["--prod"] else [])
    + Each("--compose-file", o.composeFiles) + ["--backup-dir", o.backupDir]
  }

  lemma {:induction false} EachLength(flag: string, files: seq<string>)
    ensures |Each(flag, files)| == 2 * |files|
  {
    if files != [] { EachLength(flag, files[1..]); }
  }

  lemma {:induction false} EachAt(flag: string, files: seq<string>, i: nat)
    requires i < |files|
    ensures |Each(flag, files)| == 2 * |files|
    ensures Each(flag, files)[2 * i] == flag && Each(flag, files)[2 * i + 1] == files[i]
  {
    EachLength(flag, files);
    if i > 0 {
      var rest := Each(flag, files[1..]);
      EachAt(flag, files[1..], i - 1);
      assert Each(flag, files) == [flag, files[0]] + rest;
      hide Each;
      assert Each(flag, files)[2 * i] == rest[2 * (i - 1)] && Each(flag, files)[2 * i + 1] == rest[2 * (i - 1) + 1];
    }
  }

  /** `compose`, then `-f` before each file: the base file, those of the two modes, and the ones given. */
  lemma ComposeArgsAre(o: Options)
    ensures
      var files :=
        if o.prod && o.release then ["docker-compose.yml", "compose.prod.yml", "compose.release.yml"] + o.composeFiles
        else if o.prod then ["docker-compose.yml", "compose.prod.yml"] + o.composeFiles
        else if o.release then ["docker-compose.yml", "compose.release.yml"] + o.composeFiles
        else ["docker-compose.yml"] + o.composeFiles;
      && |ComposeArgs(o)| == 1 + 2 * |files| && ComposeArgs(o)[0] == "compose"
      && forall i | 0 <= i < |files| :: ComposeArgs(o)[1 + 2 * i] == "-f" && ComposeArgs(o)[2 + 2 * i] == files[i]
  {
    var files := ["docker-compose.yml"] + (if o.prod then ["compose.prod.yml"] else [])
      + (if o.release then ["compose.release.yml"] else []) + o.composeFiles;
    EachLength("-f", files);
    assert ComposeArgs(o) == ["compose"] + Each("-f", files);
    forall i | 0 <= i < |files| ensures ComposeArgs(o)[1 + 2 * i] == "-f" && ComposeArgs(o)[2 + 2 * i] == files[i] {
      EachAt("-f", files, i);
      hide Each, ComposeArgs;
      assert ComposeArgs(o)[1 + 2 * i] == Each("-f", files)[2 * i];
      assert ComposeArgs(o)[2 + 2 * i] == Each("-f", files)[2 * i + 1];
    }
    hide Each, ComposeArgs;
  }

  method BuildBackupArgs(o: Options) returns (args: seq<string>)
    ensures args == BackupArgs(o)
  {
    args := ["selfhost:backup", "--app-stopped"];
    if o.prod { args := args + ["--prod"]; }
    ghost var prefix := args;
    for i := 0 to |o.composeFiles|
      invariant args == prefix + Each("--compose-file", o.composeFiles[..i])
    {
      EachSnoc("--compose-file", o.composeFiles[..i], o.composeFiles[i]);
      assert o.composeFiles[..i + 1] == o.composeFiles[..i] + [o.composeFiles[i]];
      args := args + ["--compose-file", o.composeFiles[i]];
    }
    assert o.composeFiles[..|o.composeFiles|] == o.composeFiles;
    args := args + ["--backup-dir", o.backupDir];
  }

  lemma {:induction false} EachSnoc(flag: string, files: seq<string>, file: string)
    ensures Each(flag, files + [file]) == Each(flag, files) + [flag, file]
  {
    if files == [] {
      assert files + [file] == [file];
    } else {
      assert (files + [file])[1..] == files[1..] + [file];
      EachSnoc(flag, files[1..], file);
    }
  }

  // ---- parsing ----

  datatype Switch =
    | Prod | Release | NoBackup | Backup | SkipBuild | SkipPull | SkipDoctor | SkipSmoke | DryRun | CheckOnly

  /** One option of the command line, with its value if it takes one. */
  datatype Token = Flag(switch: Switch) | File(long: bool, value: string) | Dir(value: string)

  /** The options after one more token. */
  function Took(o: Options, t: Token): Options {
    Options(
      o.prod || t == Flag(Prod), o.release || t == Flag(Release),
      if t.File? then o.composeFiles + [t.value] else o.composeFiles,
      if t == Flag(Backup) then true else if t == Flag(NoBackup) then false else o.backup,
      if t.Dir? then t.value else o.backupDir,
      o.skipBuild || t == Flag(SkipBuild) || t == Flag(SkipPull), o.skipDoctor || t == Flag(SkipDoctor),
      o.skipSmoke || t == Flag(SkipSmoke), o.dryRun || t == Flag(DryRun) || t == Flag(CheckOnly))
  }

  datatype Parse<+T> = Parsed(options: T) | Helped | Unknown(arg: string) | NeedsValue(arg: string)

  /** The rest of `parseUpgradeArgs` from the options so far. */
  function ParseUpgrade(argv: seq<string>, o: Options): Parse<Options>
    decreases |argv|
  {
    if argv == [] then Parsed(o) else
      var arg, rest := argv[0], argv[1..];
      if arg == "--compose-file" || arg == "-f" then
        if rest == [] || rest[0] == "" then NeedsValue(arg)
        else ParseUpgrade(rest[1..], Took(o, File(arg == "--compose-file", rest[0])))
      else if arg == "--backup-dir" then
        if rest == [] || rest[0] == "" then NeedsValue(arg) else ParseUpgrade(rest[1..], Took(o, Dir(rest[0])))
      else if arg == "--help" || arg == "-h" then Helped
      else if SwitchFor(arg).Some? then ParseUpgrade(rest, Took(o, Flag(SwitchFor(arg).value)))
      else Unknown(arg)
  }

  function SwitchFor(arg: string): Option<Switch> {
    if arg == "--prod" then Some(Prod)
    else if arg == "--release" then Some(Release)
    else if arg == "--no-backup" then Some(NoBackup)
    else if arg == "--backup" then Some(Backup)
    else if arg == "--skip-build" then Some(SkipBuild)
    else if arg == "--skip-pull" then Some(SkipPull)
    else if arg == "--skip-doctor" then Some(SkipDoctor)
    else if arg == "--skip-smoke" then Some(SkipSmoke)
    else if arg == "--dry-run" then Some(DryRun)
    else if arg == "--check-only" then Some(CheckOnly)
    else None
  }

  lemma ValueTaken(o: Options, long: bool, value: string)
    ensures Took(o, File(long, value)) == o.(composeFiles := o.composeFiles + [value])
    ensures Took(o, Dir(value)) == o.(backupDir := value)
  {
  }

  method TakeSwitch(s: Switch, o: Options) returns (r: Options)
    ensures r == Took(o, Flag(s))
  {
    match s {
      case Prod => return o.(prod := true);
      case Release => return o.(release := true);
      case NoBackup => return o.(backup := false);
      case Backup => return o.(backup := true);
      case SkipBuild => return o.(skipBuild := true);
      case SkipPull => return o.(skipBuild := true);
      case SkipDoctor => return o.(skipDoctor := true);
      case SkipSmoke => return o.(skipSmoke := true);
      case DryRun => return o.(dryRun := true);
      case CheckOnly => return o.(dryRun := true);
    }
  }

  method ParseUpgradeArgs(argv: seq<string>) returns (r: Parse<Options>)
    ensures r == ParseUpgrade(argv, DEFAULTS)
  {
    hide Took, SwitchFor;
    var o := DEFAULTS;
    var index := 0;
    assert argv[0..] == argv;
    while index < |argv|
      invariant index <= |argv|
      invariant ParseUpgrade(argv, DEFAULTS) == ParseUpgrade(argv[index..], o)
    {
      var arg := argv[index];
      ghost var left := argv[index..];
      assert left[1..] == argv[index + 1..];
      if arg == "--compose-file" || arg == "-f" {
        if index + 1 >= |argv| || argv[index + 1] == "" { return NeedsValue(arg); }
        ValueTaken(o, arg == "--compose-file", argv[index + 1]);
        o := o.(composeFiles := o.composeFiles + [argv[index + 1]]);
        index := index + 1;
        assert left[1..][1..] == argv[index + 1..];
      } else if arg == "--backup-dir" {
        if index + 1 >= |argv| || argv[index + 1] == "" { return NeedsValue(arg); }
        ValueTaken(o, true, argv[index + 1]);
        o := o.(backupDir := argv[index + 1]);
        index := index + 1;
        assert left[1..][1..] == argv[index + 1..];
      } else if arg == "--help" || arg == "-h" {
        return Helped;
      } else {
        var switch := SwitchFor(arg);
        if switch.None? { return Unknown(arg); }
        o := TakeSwitch(switch.value, o);
      }
      index := index + 1;
    }
    return Parsed(o);
  }

  /** The rest of `parseBackupArgs` from the options so far. */
  function ParseBackup(argv: seq<string>, o: BackupOptions): Parse<BackupOptions>
    decreases |argv|
  {
    if argv == [] then Parsed(o) else
      var arg, rest := argv[0], argv[1..];
      if arg == "--prod" then ParseBackup(rest, o.(prod := true))
      else if arg == "--compose-file" || arg == "-f" then
        if rest == [] || rest[0] == "" then NeedsValue(arg)
        else ParseBackup(rest[1..], o.(composeFiles := o.composeFiles + [rest[0]]))
      else if arg == "--backup-dir" then
        if rest == [] || rest[0] == "" then NeedsValue(arg) else ParseBackup(rest[1..], o.(backupDir := rest[0]))
      else if arg == "--app-stopped" then ParseBackup(rest, o.(appStopped := true))
      else if arg == "--dry-run" || arg == "--check-only" then ParseBackup(rest, o.(dryRun := true))
      else Unknown(arg)
  }

  method ParseBackupArgs(argv: seq<string>) returns (r: Parse<BackupOptions>)
    ensures r == ParseBackup(argv, BACKUP_DEFAULTS)
  {
    var o := BACKUP_DEFAULTS;
    var index := 0;
    assert argv[0..] == argv;
    while index < |argv|
      invariant index <= |argv|
      invariant ParseBackup(argv, BACKUP_DEFAULTS) == ParseBackup(argv[index..], o)
    {
      var arg := argv[index];
      ghost var left := argv[index..];
      assert left[1..] == argv[index + 1..];
      if arg == "--prod" { o := o.(prod := true); }
      else if arg == "--compose-file" || arg == "-f" {
        index := index + 1;
        if index >= |argv| || argv[index] == "" { return NeedsValue(arg); }
        o := o.(composeFiles := o.composeFiles + [argv[index]]);
        assert left[1..][1..] == argv[index + 1..];
      } else if arg == "--backup-dir" {
        index := index + 1;
        if index >= |argv| || argv[index] == "" { return NeedsValue(arg); }
        o := o.(backupDir := argv[index]);
        assert left[1..][1..] == argv[index + 1..];
      } else if arg == "--app-stopped" { o := o.(appStopped := true); }
      else if arg == "--dry-run" || arg == "--check-only" { o := o.(dryRun := true); }
      else { return Unknown(arg); }
      index := index + 1;
    }
    return Parsed(o);
  }

  // ---- what an argument list means ----

  function Spelling(s: Switch): string {
    match s
    case Prod => "--prod"
    case Release => "--release"
    case NoBackup => "--no-backup"
    case Backup => "--backup"
    case SkipBuild => "--skip-build"
    case SkipPull => "--skip-pull"
    case SkipDoctor => "--skip-doctor"
    case SkipSmoke => "--skip-smoke"
    case DryRun => "--dry-run"
    case CheckOnly => "--check-only"
  }

  function Spelled(t: Token): seq<string> {
    match t
    case Flag(switch) => [Spelling(switch)]
    case File(long, value) => [if long then "--compose-file" else "-f", value]
    case Dir(value) => ["--backup-dir", value]
  }

  function Flatten(tokens: seq<Token>): seq<string> {
    if tokens == [] then [] else Spelled(tokens[0]) + Flatten(tokens[1..])
  }

  ghost predicate NoEmptyValue(tokens: seq<Token>) {
    forall i | 0 <= i < |tokens| :: !tokens[i].Flag? ==> tokens[i].value != ""
  }

  /** The compose files, in the order given. */
  function FilesIn(tokens: seq<Token>): seq<string> {
    if tokens == [] then []
    else (if tokens[0].File? then [tokens[0].value] else []) + FilesIn(tokens[1..])
  }

  /** The last backup directory, or `dir` if none is given. */
  function DirIn(tokens: seq<Token>, dir: string): string {
    if tokens == [] then dir else DirIn(tokens[1..], if tokens[0].Dir? then tokens[0].value else dir)
  }

  /** The last of `--backup` and `--no-backup` decides. */
  function BackupIn(tokens: seq<Token>, backup: bool): bool {
    if tokens == [] then backup
    else
      BackupIn(tokens[1..],
               if tokens[0] == Flag(Backup) then true else if tokens[0] == Flag(NoBackup) then false else backup)
  }

  predicate Has(tokens: seq<Token>, s: Switch) {
    tokens != [] && (tokens[0] == Flag(s) || Has(tokens[1..], s))
  }

  function Meaning(tokens: seq<Token>, o: Options): Options {
    Options(
      o.prod || Has(tokens, Prod), o.release || Has(tokens, Release), o.composeFiles + FilesIn(tokens),
      BackupIn(tokens, o.backup), DirIn(tokens, o.backupDir),
      o.skipBuild || Has(tokens, SkipBuild) || Has(tokens, SkipPull), o.skipDoctor || Has(tokens, SkipDoctor),
      o.skipSmoke || Has(tokens, SkipSmoke), o.dryRun || Has(tokens, DryRun) || Has(tokens, CheckOnly))
  }

  lemma TookMeans(tokens: seq<Token>, o: Options)
    requires tokens != []
    ensures Meaning(tokens[1..], Took(o, tokens[0])) == Meaning(tokens, o)
  {
    hide Spelled, Flatten;
    var next := Took(o, tokens[0]);
    var first := if tokens[0].File? then [tokens[0].value] else [];
    assert (o.composeFiles + first) + FilesIn(tokens[1..]) == o.composeFiles + (first + FilesIn(tokens[1..]));
    assert o.composeFiles + FilesIn(tokens) == next.composeFiles + FilesIn(tokens[1..]);
    assert DirIn(tokens, o.backupDir) == DirIn(tokens[1..], next.backupDir);
    assert BackupIn(tokens, o.backup) == BackupIn(tokens[1..], next.backup);
    forall s ensures Has(tokens, s) <==> tokens[0] == Flag(s) || Has(tokens[1..], s) {}
    hide Has, BackupIn, DirIn, FilesIn;
  }

  lemma SwitchSpelling(s: Switch)
    ensures SwitchFor(Spelling(s)) == Some(s)
  {
  }

  lemma SpellingSwitch(arg: string)
    requires SwitchFor(arg).Some?
    ensures Spelling(SwitchFor(arg).value) == arg
  {
  }

  lemma NotValued(s: Switch)
    ensures Spelling(s) !in {"--compose-file", "-f", "--backup-dir", "--help", "-h"}
  {
  }

  lemma TookParses(t: Token, rest: seq<string>, o: Options)
    requires !t.Flag? ==> t.value != ""
    ensures ParseUpgrade(Spelled(t) + rest, o) == ParseUpgrade(rest, Took(o, t))
  {
    match t {
      case Flag(s) =>
        SwitchSpelling(s);
        NotValued(s);
        hide Took, Spelling, SwitchFor;
        assert ([Spelling(s)] + rest)[1..] == rest;
      case File(long, value) =>
        hide Took;
        assert (Spelled(t) + rest)[1..] == [value] + rest && ([value] + rest)[1..] == rest;
      case Dir(value) =>
        hide Took;
        assert (Spelled(t) + rest)[1..] == [value] + rest && ([value] + rest)[1..] == rest;
    }
  }

  /** A list of well-formed options parses to what they say, wherever they stand. */
  lemma {:induction false} TokensMean(tokens: seq<Token>, o: Options)
    requires NoEmptyValue(tokens)
    ensures ParseUpgrade(Flatten(tokens), o) == Parsed(Meaning(tokens, o))
  {
    if tokens == [] {
      assert o.composeFiles + [] == o.composeFiles;
    } else {
      TookParses(tokens[0], Flatten(tokens[1..]), o);
      TokensMean(tokens[1..], Took(o, tokens[0]));
      TookMeans(tokens, o);
    }
  }

  /** Nothing else parses: an accepted argument list is a list of well-formed options. */
  lemma {:induction false} ParsedIsTokens(argv: seq<string>, o: Options) returns (tokens: seq<Token>)
    requires ParseUpgrade(argv, o).Parsed?
    ensures NoEmptyValue(tokens) && Flatten(tokens) == argv
    decreases |argv|
  {
    if argv == [] {
      tokens := [];
    } else {
      hide ParseUpgrade, Took, Spelled;
      var t, used := FirstToken(argv, o);
      var rest := ParsedIsTokens(argv[used..], Took(o, t));
      tokens := [t] + rest;
      assert tokens[1..] == rest && argv == argv[..used] + argv[used..];
    }
  }

  lemma FirstToken(argv: seq<string>, o: Options) returns (t: Token, used: nat)
    requires argv != [] && ParseUpgrade(argv, o).Parsed?
    ensures 0 < used <= |argv| && argv[..used] == Spelled(t) && (!t.Flag? ==> t.value != "")
    ensures ParseUpgrade(argv[used..], Took(o, t)) == ParseUpgrade(argv, o)
  {
    hide Took, SwitchFor, Spelling;
    var arg := argv[0];
    if arg == "--compose-file" || arg == "-f" {
      t, used := File(arg == "--compose-file", argv[1]), 2;
      assert argv[1..][1..] == argv[2..];
    } else if arg == "--backup-dir" {
      t, used := Dir(argv[1]), 2;
      assert argv[1..][1..] == argv[2..];
    } else {
      SpellingSwitch(arg);
      t, used := Flag(SwitchFor(arg).value), 1;
    }
  }

  /** Every option as it is written. */
  lemma SpellingsAre(long: string, value: string)
    ensures Flatten([Flag(Prod), Flag(Release)]) == ["--prod", "--release"]
    ensures Spelled(Flag(Backup)) == ["--backup"] && Spelled(Flag(NoBackup)) == ["--no-backup"]
    ensures Spelled(Flag(SkipBuild)) == ["--skip-build"] && Spelled(Flag(SkipPull)) == ["--skip-pull"]
    ensures Spelled(Flag(SkipDoctor)) == ["--skip-doctor"] && Spelled(Flag(SkipSmoke)) == ["--skip-smoke"]
    ensures Spelled(Flag(DryRun)) == ["--dry-run"] && Spelled(Flag(CheckOnly)) == ["--check-only"]
    ensures Spelled(File(true, value)) == ["--compose-file", value] && Spelled(File(false, value)) == ["-f", value]
    ensures Spelled(Dir(value)) == ["--backup-dir", value]
  {
  }

  /** With no arguments there is a backup, to `backups`, and nothing special. */
  lemma NoArguments()
    ensures ParseUpgrade([], DEFAULTS) == Parsed(Options(false, false, [], true, "backups", false, false, false, false))
    ensures ParseBackup([], BACKUP_DEFAULTS) == Parsed(BackupOptions(false, [], "backups", false, false))
  {
  }

  predicate UpgradeKnows(arg: string) {
    arg in {"--prod", "--release", "--no-backup", "--backup", "--skip-build", "--skip-pull", "--skip-doctor",
            "--skip-smoke", "--dry-run", "--check-only", "--compose-file", "-f", "--backup-dir", "--help", "-h"}
  }

  predicate TakesValue(arg: string) { arg in {"--compose-file", "-f", "--backup-dir"} }

  /** What the first argument that is no well-formed option leads to. */
  function Stops<T>(arg: string, rest: seq<string>): Parse<T> {
    if TakesValue(arg) then NeedsValue(arg) else if arg == "--help" || arg == "-h" then Helped else Unknown(arg)
  }

  /** Well-formed options first, then help, an unknown argument, or an option whose value is missing or empty. */
  lemma {:induction false} UpgradeStops(tokens: seq<Token>, arg: string, rest: seq<string>, o: Options)
    requires NoEmptyValue(tokens)
    requires !UpgradeKnows(arg) || arg == "--help" || arg == "-h" || (TakesValue(arg) && (rest == [] || rest[0] == ""))
    ensures ParseUpgrade(Flatten(tokens) + [arg] + rest, o) == Stops(arg, rest)
  {
    if tokens == [] {
      assert Flatten(tokens) + [arg] + rest == [arg] + rest && ([arg] + rest)[1..] == rest;
    } else {
      UpgradeStops(tokens[1..], arg, rest, Took(o, tokens[0]));
      TookParses(tokens[0], Flatten(tokens[1..]) + [arg] + rest, o);
      assert Flatten(tokens) + [arg] + rest == Spelled(tokens[0]) + (Flatten(tokens[1..]) + [arg] + rest);
      hide Spelled, Took, ParseUpgrade;
    }
  }

  // ---- what the backup's argument list means ----

  datatype BackupToken =
    | ForProd | AppStopped | DryFlag(checkOnly: bool) | BackupFile(long: bool, value: string) | BackupDir(value: string)

  function SpelledBackup(t: BackupToken): seq<string> {
    match t
    case ForProd => ["--prod"]
    case AppStopped => ["--app-stopped"]
    case DryFlag(checkOnly) => [if checkOnly then "--check-only" else "--dry-run"]
    case BackupFile(long, value) => [if long then "--compose-file" else "-f", value]
    case BackupDir(value) => ["--backup-dir", value]
  }

  function FlattenBackup(tokens: seq<BackupToken>): seq<string> {
    if tokens == [] then [] else SpelledBackup(tokens[0]) + FlattenBackup(tokens[1..])
  }

  ghost predicate NoEmptyBackupValue(tokens: seq<BackupToken>) {
    forall t | t in tokens && (t.BackupFile? || t.BackupDir?) :: t.value != ""
  }

  function BackupFilesIn(tokens: seq<BackupToken>): seq<string> {
    if tokens == [] then []
    else (if tokens[0].BackupFile? then [tokens[0].value] else []) + BackupFilesIn(tokens[1..])
  }

  function BackupDirIn(tokens: seq<BackupToken>, dir: string): string {
    if tokens == [] then dir
    else BackupDirIn(tokens[1..], if tokens[0].BackupDir? then tokens[0].value else dir)
  }

  /** Flags anywhere, files in order, the last directory. */
  ghost predicate BackupMeans(tokens: seq<BackupToken>, o: BackupOptions, r: BackupOptions) {
    && (r.prod <==> o.prod || ForProd in tokens) && (r.appStopped <==> o.appStopped || AppStopped in tokens)
    && (r.dryRun <==> o.dryRun || exists t :: t in tokens && t.DryFlag?)
    && r.composeFiles == o.composeFiles + BackupFilesIn(tokens) && r.backupDir == BackupDirIn(tokens, o.backupDir)
  }

  function TookBackup(o: BackupOptions, t: BackupToken): BackupOptions {
    match t
    case ForProd => o.(prod := true)
    case AppStopped => o.(appStopped := true)
    case DryFlag(_) => o.(dryRun := true)
    case BackupFile(_, value) => o.(composeFiles := o.composeFiles + [value])
    case BackupDir(value) => o.(backupDir := value)
  }

  lemma TookBackupParses(t: BackupToken, rest: seq<string>, o: BackupOptions)
    requires t.BackupFile? || t.BackupDir? ==> t.value != ""
    ensures ParseBackup(SpelledBackup(t) + rest, o) == ParseBackup(rest, TookBackup(o, t))
  {
    var argv := SpelledBackup(t) + rest;
    if t.BackupFile? || t.BackupDir? {
      assert argv[1..] == [t.value] + rest && argv[1..][1..] == rest;
    } else {
      assert argv[1..] == rest;
    }
  }

  lemma TookBackupMeans(tokens: seq<BackupToken>, o: BackupOptions, r: BackupOptions)
    requires tokens != [] && BackupMeans(tokens[1..], TookBackup(o, tokens[0]), r)
    ensures BackupMeans(tokens, o, r)
  {
    var first := if tokens[0].BackupFile? then [tokens[0].value] else [];
    assert (o.composeFiles + first) + BackupFilesIn(tokens[1..]) ==
      o.composeFiles + (first + BackupFilesIn(tokens[1..]));
    assert r.composeFiles == o.composeFiles + BackupFilesIn(tokens);
    assert r.backupDir == BackupDirIn(tokens, o.backupDir);
    hide BackupFilesIn, BackupDirIn;
    assert tokens == [tokens[0]] + tokens[1..];
    forall t ensures t in tokens <==> t == tokens[0] || t in tokens[1..] {}
  }

  lemma {:induction false} BackupTokensMean(tokens: seq<BackupToken>, o: BackupOptions)
    requires NoEmptyBackupValue(tokens)
    ensures ParseBackup(FlattenBackup(tokens), o).Parsed?
    ensures BackupMeans(tokens, o, ParseBackup(FlattenBackup(tokens), o).options)
  {
    if tokens == [] {
      assert o.composeFiles + [] == o.composeFiles;
    } else {
      TookBackupParses(tokens[0], FlattenBackup(tokens[1..]), o);
      BackupTokensMean(tokens[1..], TookBackup(o, tokens[0]));
      hide ParseBackup, BackupMeans, TookBackup, SpelledBackup;
      TookBackupMeans(tokens, o, ParseBackup(FlattenBackup(tokens), o).options);
    }
  }

  /** Nothing else parses. */
  lemma {:induction false} BackupIsTokens(argv: seq<string>, o: BackupOptions) returns (tokens: seq<BackupToken>)
    requires ParseBackup(argv, o).Parsed?
    ensures NoEmptyBackupValue(tokens) && FlattenBackup(tokens) == argv
    decreases |argv|
  {
    if argv == [] {
      tokens := [];
    } else {
      var t := FirstBackupToken(argv, o);
      var used := |SpelledBackup(t)|;
      hide ParseBackup, SpelledBackup;
      var rest := BackupIsTokens(argv[used..], TookBackup(o, t));
      tokens := [t] + rest;
      assert tokens[1..] == rest && argv == argv[..used] + argv[used..];
    }
  }

  lemma FirstBackupToken(argv: seq<string>, o: BackupOptions) returns (t: BackupToken)
    requires argv != [] && ParseBackup(argv, o).Parsed?
    ensures t.BackupFile? || t.BackupDir? ==> t.value != ""
    ensures 0 < |SpelledBackup(t)| <= |argv| && SpelledBackup(t) == argv[..|SpelledBackup(t)|]
    ensures ParseBackup(argv[|SpelledBackup(t)|..], TookBackup(o, t)) == ParseBackup(argv, o)
  {
    var arg := argv[0];
    if arg == "--compose-file" || arg == "-f" {
      t := BackupFile(arg == "--compose-file", argv[1]);
      assert argv[1..][1..] == argv[2..];
    } else if arg == "--backup-dir" {
      t := BackupDir(argv[1]);
      assert argv[1..][1..] == argv[2..];
    } else if arg == "--prod" { t := ForProd; }
    else if arg == "--app-stopped" { t := AppStopped; }
    else { t := DryFlag(arg == "--check-only"); }
  }

  predicate BackupKnows(arg: string) {
    arg in {"--prod", "--app-stopped", "--dry-run", "--check-only", "--compose-file", "-f", "--backup-dir"}
  }

  /** Then an unknown argument, or an option whose value is missing or empty; there is no help. */
  lemma {:induction false} BackupStops(tokens: seq<BackupToken>, arg: string, rest: seq<string>, o: BackupOptions)
    requires NoEmptyBackupValue(tokens)
    requires !BackupKnows(arg) || (TakesValue(arg) && (rest == [] || rest[0] == ""))
    ensures ParseBackup(FlattenBackup(tokens) + [arg] + rest, o)
         == if TakesValue(arg) then NeedsValue(arg) else Unknown(arg)
  {
    if tokens == [] {
      assert FlattenBackup(tokens) + [arg] + rest == [arg] + rest && ([arg] + rest)[1..] == rest;
    } else {
      BackupStops(tokens[1..], arg, rest, TookBackup(o, tokens[0]));
      TookBackupParses(tokens[0], FlattenBackup(tokens[1..]) + [arg] + rest, o);
      assert FlattenBackup(tokens) + [arg] + rest ==
        SpelledBackup(tokens[0]) + (FlattenBackup(tokens[1..]) + [arg] + rest);
      hide SpelledBackup, TookBackup, ParseBackup;
    }
  }

  // ---- the printer and the parser ----

  /** The upgrade's choices, for a backup that need not stop the app. */
  function Stopped(o: Options): BackupOptions { BackupOptions(o.prod, o.composeFiles, o.backupDir, true, false) }

  ghost predicate Printable(o: Options) {
    o.backupDir != "" && "" !in o.composeFiles
  }

  lemma {:induction false} ParseEach(files: seq<string>, tail: seq<string>, o: BackupOptions)
    requires "" !in files
    ensures ParseBackup(Each("--compose-file", files) + tail, o) ==
      ParseBackup(tail, o.(composeFiles := o.composeFiles + files))
  {
    if files == [] {
      assert Each("--compose-file", files) + tail == tail && o.composeFiles + files == o.composeFiles;
    } else {
      var all := Each("--compose-file", files) + tail;
      var rest := Each("--compose-file", files[1..]) + tail;
      assert all == ["--compose-file", files[0]] + rest;
      assert all[1..] == [files[0]] + rest && all[1..][1..] == rest;
      ParseEach(files[1..], tail, o.(composeFiles := o.composeFiles + [files[0]]));
      assert o.composeFiles + [files[0]] + files[1..] == o.composeFiles + files;
    }
  }

  lemma {:induction false} EmptyFileRefused(files: seq<string>, tail: seq<string>, o: BackupOptions)
    requires "" in files
    ensures ParseBackup(Each("--compose-file", files) + tail, o) == NeedsValue("--compose-file")
  {
    var all := Each("--compose-file", files) + tail;
    var rest := Each("--compose-file", files[1..]) + tail;
    assert all == ["--compose-file", files[0]] + rest;
    assert all[1..] == [files[0]] + rest && all[1..][1..] == rest;
    if files[0] != "" { EmptyFileRefused(files[1..], tail, o.(composeFiles := o.composeFiles + [files[0]])); }
  }

  lemma ParsePrefix(o: Options, rest: seq<string>)
    ensures
      var start := BACKUP_DEFAULTS.(appStopped := true);
      ParseBackup(["--app-stopped"] + (if o.prod then ["--prod"] else []) + rest, BACKUP_DEFAULTS)
      == ParseBackup(rest, if o.prod then start.(prod := true) else start)
  {
    var flags := if o.prod then ["--prod"] else [];
    assert (["--app-stopped"] + flags + rest)[1..] == flags + rest;
    if o.prod { assert (flags + rest)[1..] == rest; } else { assert flags + rest == rest; }
  }

  lemma ParseDir(dir: string, o: BackupOptions)
    ensures ParseBackup(["--backup-dir", dir], o) ==
      if dir == "" then NeedsValue("--backup-dir") else Parsed(o.(backupDir := dir))
  {
    var argv := ["--backup-dir", dir];
    assert argv[1..] == [dir] && argv[1..][1..] == [];
  }

  /**
   * What the upgrade prints parses back to the same choices, with the app marked
   * as stopped, exactly when no value is empty; otherwise the backup refuses.
   */
  lemma BackupRoundTrip(o: Options)
    ensures BackupArgs(o)[0] == "selfhost:backup"
    ensures ParseBackup(BackupArgs(o)[1..], BACKUP_DEFAULTS) == Parsed(Stopped(o)) <==> Printable(o)
    ensures !Printable(o) ==> ParseBackup(BackupArgs(o)[1..], BACKUP_DEFAULTS).NeedsValue?
  {
    var files := Each("--compose-file", o.composeFiles);
    var dir := ["--backup-dir", o.backupDir];
    var start := BACKUP_DEFAULTS.(appStopped := true);
    var flagged := if o.prod then start.(prod := true) else start;
    assert BackupArgs(o)[1..] == ["--app-stopped"] + (if o.prod then ["--prod"] else []) + (files + dir);
    ParsePrefix(o, files + dir);
    if "" !in o.composeFiles {
      ParseEach(o.composeFiles, dir, flagged);
      assert flagged.composeFiles + o.composeFiles == o.composeFiles;
      ParseDir(o.backupDir, flagged.(composeFiles := o.composeFiles));
    } else {
      EmptyFileRefused(o.composeFiles, dir, flagged);
    }
  }

  /** Every value the parser takes is not empty. */
  lemma TokensPrintable(tokens: seq<Token>, o: Options)
    requires NoEmptyValue(tokens) && Printable(o)
    ensures Printable(Meaning(tokens, o))
  {
    FilesNotEmpty(tokens);
    DirNotEmpty(tokens, o.backupDir);
  }

  lemma {:induction false} FilesNotEmpty(tokens: seq<Token>)
    requires NoEmptyValue(tokens)
    ensures "" !in FilesIn(tokens)
  {
    if tokens != [] { FilesNotEmpty(tokens[1..]); }
  }

  lemma {:induction false} DirNotEmpty(tokens: seq<Token>, dir: string)
    requires NoEmptyValue(tokens) && dir != ""
    ensures DirIn(tokens, dir) != ""
  {
    if tokens != [] { DirNotEmpty(tokens[1..], if tokens[0].Dir? then tokens[0].value else dir); }
  }

  /** So whatever command line the upgrade accepts, the backup it runs accepts its arguments. */
  lemma AcceptedRoundTrip(argv: seq<string>)
    requires ParseUpgrade(argv, DEFAULTS).Parsed?
    ensures
      var o := ParseUpgrade(argv, DEFAULTS).options;
      ParseBackup(BackupArgs(o)[1..], BACKUP_DEFAULTS) == Parsed(Stopped(o))
  {
    var tokens := ParsedIsTokens(argv, DEFAULTS);
    TokensMean(tokens, DEFAULTS);
    TokensPrintable(tokens, DEFAULTS);
    BackupRoundTrip(ParseUpgrade(argv, DEFAULTS).options);
  }

  /**
   * The backup addresses the same Compose project as the upgrade exactly when
   * the upgrade is not a release upgrade: the printed arguments drop `--release`.
   */
  lemma SameComposeProject(o: Options)
    ensures BackupComposeArgs(Stopped(o)) == ComposeArgs(o) <==> !o.release
  {
    var prod := ["docker-compose.yml"] + (if o.prod then ["compose.prod.yml"] else []);
    EachLength("-f", prod + o.composeFiles);
    EachLength("-f", prod + (if o.release then ["compose.release.yml"] else []) + o.composeFiles);
    if !o.release { assert prod + [] + o.composeFiles == prod + o.composeFiles; }
  }
}
