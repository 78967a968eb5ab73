/** The command line of a backup: how it is put together from a job, and how a reader takes it apart. */
module Restic {
  import opened Wrappers
  import opened Models
  import opened Arithmetic
  import Settings

  // ---------- UUID text ----------

  /** Section 4 of RFC 9562: lower-case hexadecimal digits in groups of 8, 4, 4, 4 and 12, joined by hyphens. */
  function UuidText(u: Uuid): string {
    HexText(u[..8]) + "-" + HexText(u[8..12]) + "-" + HexText(u[12..16]) + "-" + HexText(u[16..20]) + "-"
      + HexText(u[20..])
  }

  function HexText(digits: seq<Nibble>): string {
    seq(|digits|, i requires 0 <= i < |digits| => HexDigit(digits[i]))
  }

  function HexDigit(n: Nibble): char {
    if n < 10 then '0' + n as char else 'a' + (n - 10) as char
  }

  function HexValue(c: char): Option<Nibble> {
    if '0' <= c <= '9' then Some((c - '0') as int)
    else if 'a' <= c <= 'f' then Some((c - 'a') as int + 10)
    else None
  }

  function HexValues(text: string): Option<seq<Nibble>> {
    if text == "" then
      Some([])
    else
      match (HexValue(text[0]), HexValues(text[1..]))
      case (Some(v), Some(vs)) => Some([v] + vs)
      case _ => None
  }

  function ParseUuid(text: string): Option<Uuid> {
    if |text| != 36 || text[8] != '-' || text[13] != '-' || text[18] != '-' || text[23] != '-' then
      None
    else
      match HexValues(text[..8] + text[9..13] + text[14..18] + text[19..23] + text[24..])
      case Some(digits) => if |digits| == 32 then Some(digits) else None
      case None => None
  }

  lemma {:induction false} HexRoundTrip(digits: seq<Nibble>)
    ensures HexValues(HexText(digits)) == Some(digits)
  {
    if digits != [] {
      HexRoundTrip(digits[1..]);
      assert HexText(digits)[1..] == HexText(digits[1..]);
      assert HexValue(HexDigit(digits[0])) == Some(digits[0]);
      assert digits == [digits[0]] + digits[1..];
    }
  }

  lemma UuidRoundTrip(u: Uuid)
    ensures ParseUuid(UuidText(u)) == Some(u)
  {
    var t := UuidText(u);
    assert t[..8] == HexText(u[..8]) && t[9..13] == HexText(u[8..12]) && t[14..18] == HexText(u[12..16]);
    assert t[19..23] == HexText(u[16..20]) && t[24..] == HexText(u[20..]);
    assert t[..8] + t[9..13] + t[14..18] + t[19..23] + t[24..] == HexText(u);
    HexRoundTrip(u);
  }

  // ---------- tags ----------

  const BACKUP_TAG: string := "backup:"
  const NAME_TAG: string := "backup_name="
  const ORIGIN_TAG: string := "origin="
  const ACCOUNT_TAG: string := "account_id="

  function ResticTags(job: BackupJob): seq<string> {
    [BACKUP_TAG + UuidText(job.id), NAME_TAG + job.name]
    + (match job.originName case Some(origin) => [ORIGIN_TAG + origin] case None => [])
    + (match job.accountId case Some(account) => [ACCOUNT_TAG + UuidText(account)] case None => [])
  }

  /** Two tags, and one more for each part that the job has. */
  method GetResticTags(job: BackupJob) returns (tags: seq<string>)
    ensures tags == ResticTags(job)
    ensures |tags| == 2 + (if job.originName.Some? then 1 else 0) + (if job.accountId.Some? then 1 else 0)
    ensures tags[0] == "backup:" + UuidText(job.id) && tags[1] == "backup_name=" + job.name
    ensures job.originName.Some? ==> tags[2] == "origin=" + job.originName.value
    ensures job.accountId.Some? ==> tags[|tags| - 1] == "account_id=" + UuidText(job.accountId.value)
  {
    tags := [BACKUP_TAG + UuidText(job.id)];
    tags := tags + [NAME_TAG + job.name];
    if job.originName.Some? {
      tags := tags + [ORIGIN_TAG + job.originName.value];
    }
    if job.accountId.Some? {
      tags := tags + [ACCOUNT_TAG + UuidText(job.accountId.value)];
    }
  }

  datatype TagInfo = TagInfo(id: Uuid, name: string, originName: Option<string>, accountId: Option<Uuid>)

  /** The rest of a tag that starts with `prefix`. */
  function After(prefix: string, tag: string): Option<string> {
    if prefix <= tag then Some(tag[|prefix|..]) else None
  }

  function AfterUuid(prefix: string, tag: string): Option<Uuid> {
    match After(prefix, tag)
    case Some(text) => ParseUuid(text)
    case None => None
  }

  function DecodeTags(tags: seq<string>): Option<TagInfo> {
    if |tags| < 2 || AfterUuid(BACKUP_TAG, tags[0]).None? || After(NAME_TAG, tags[1]).None? then
      None
    else
      var origin := if |tags| > 2 then After(ORIGIN_TAG, tags[2]) else None;
      var rest := tags[if origin.Some? then 3 else 2..];
      var account := if rest != [] then AfterUuid(ACCOUNT_TAG, rest[0]) else None;
      Some(TagInfo(AfterUuid(BACKUP_TAG, tags[0]).value, After(NAME_TAG, tags[1]).value, origin, account))
  }

  lemma AfterPrefix(prefix: string, text: string)
    ensures After(prefix, prefix + text) == Some(text)
  {
  }

  lemma AfterUuidPrefix(prefix: string, u: Uuid)
    ensures AfterUuid(prefix, prefix + UuidText(u)) == Some(u)
  {
    AfterPrefix(prefix, UuidText(u));
    UuidRoundTrip(u);
  }

  /** The tags tell the job's identity, whatever its name and origin contain. */
  lemma TagsDecode(job: BackupJob)
    ensures DecodeTags(ResticTags(job)) == Some(TagInfo(job.id, job.name, job.originName, job.accountId))
  {
    hide UuidText, ParseUuid, AfterUuid, After;
    var tags := ResticTags(job);
    AfterUuidPrefix(BACKUP_TAG, job.id);
    AfterPrefix(NAME_TAG, job.name);
    if job.originName.Some? {
      AfterPrefix(ORIGIN_TAG, job.originName.value);
    }
    if job.accountId.Some? {
      AfterUuidPrefix(ACCOUNT_TAG, job.accountId.value);
      NoOrigin(ACCOUNT_TAG + UuidText(job.accountId.value));
    }
  }

  lemma NoOrigin(tag: string)
    requires tag != "" && tag[0] != 'o'
    ensures After(ORIGIN_TAG, tag).None?
  {
  }

  // ---------- arguments ----------

  const EXCLUDE: string := "--exclude"
  const TAG: string := "--tag"

  function Flagged(flag: string, values: seq<string>): seq<string> {
    if values == [] then [] else Flagged(flag, values[..|values| - 1]) + [flag, values[|values| - 1]]
  }

  /** A flag and a value for each value, in order. */
  lemma {:induction false} FlaggedAt(flag: string, values: seq<string>, k: nat)
    requires k < |values|
    ensures |Flagged(flag, values)| == 2 * |values|
    ensures Flagged(flag, values)[2 * k] == flag && Flagged(flag, values)[2 * k + 1] == values[k]
  {
    var n := |values| - 1;
    if k < n {
      FlaggedAt(flag, values[..n], k);
    } else if n > 0 {
      FlaggedAt(flag, values[..n], n - 1);
    }
  }

  /** The strings of a JSON array; any other value gives no arguments. */
  function StringArgs(json: Json): seq<string> {
    if json.JArray? then Strings(json.items) else []
  }

  function Strings(items: seq<Json>): seq<string> {
    if items == [] then
      []
    else
      var n := |items| - 1;
      Strings(items[..n]) + if items[n].JString? then [items[n].text] else []
  }

  /** Strings are kept, in order, and everything else is left out. */
  lemma StringsOf(before: seq<Json>, item: Json, after: seq<Json>)
    ensures Strings(before + [item] + after) ==
      Strings(before) + (if item.JString? then [item.text] else []) + Strings(after)
  {
    StringsConcat(before + [item], after);
    assert (before + [item])[..|before|] == before;
  }

  function BackupArgs(job: BackupJob): seq<string> {
    ["backup", "--json"] + job.sourcePaths + Flagged(EXCLUDE, job.excludePatterns.GetOr([]))
    + Flagged(TAG, ResticTags(job)) + Flagged(TAG, job.tags.GetOr([])) + StringArgs(job.resticArgs)
  }

  // ---------- the command ----------

  /** What a command is made from, besides the job. */
  datatype Configuration = Configuration(
    binaryPath: string,
    repositoryUrl: string,
    repositoryPassword: string,
    cacheDir: Option<string>)

  /** The settings of the device, and the restic binary if one was found. */
  function Configured(settings: map<string, string>, binary: Option<string>): Result<Configuration, AppError> {
    match Settings.GetSetting(settings, "repository_url")
    case None => Err(ConfigurationError)
    case Some(url) =>
      match Settings.GetSetting(settings, "repository_password")
      case None => Err(ConfigurationError)
      case Some(password) =>
        match binary
        case None => Err(ResticNotFound)
        case Some(path) => Ok(Configuration(path, url, password, Settings.GetSetting(settings, "repository_cache_dir")))
  }

  /**
   A command can be made exactly when URL and password are set and restic was found; a missing setting is reported
   before a missing binary. In terms of the rows: each of the three is the device's value, else a global one.
   */
  lemma ConfiguredIff(rows: seq<Settings.Setting>, global: seq<Settings.Setting>, own: seq<Settings.Setting>,
                      binary: Option<string>)
    requires Settings.QueryResult(rows, global, own)
    ensures var r := Configured(Settings.Collect(rows), binary);
      var url := Settings.HasKey(own, "repository_url") || Settings.HasKey(global, "repository_url");
      var password := Settings.HasKey(own, "repository_password") || Settings.HasKey(global, "repository_password");
      && (r.Ok? <==> url && password && binary.Some?)
      && (r.Err? ==> r.error == if url && password then ResticNotFound else ConfigurationError)
      && (r.Ok? ==>
            && binary == Some(r.value.binaryPath)
            && Decided(global, own, "repository_url", r.value.repositoryUrl)
            && Decided(global, own, "repository_password", r.value.repositoryPassword)
            && (r.value.cacheDir.Some? ==> Decided(global, own, "repository_cache_dir", r.value.cacheDir.value))
            && (r.value.cacheDir.Some? <==>
                  Settings.HasKey(own, "repository_cache_dir") || Settings.HasKey(global, "repository_cache_dir")))
  {
    hide Settings.Collect, Settings.QueryResult, Settings.HasKey;
    Settings.MergeIsTwoLevelLookup(rows, global, own, "repository_url");
    Settings.MergeIsTwoLevelLookup(rows, global, own, "repository_password");
    Settings.MergeIsTwoLevelLookup(rows, global, own, "repository_cache_dir");
  }

  /** A row of the deciding tier has this key and this value. */
  ghost predicate Decided(global: seq<Settings.Setting>, own: seq<Settings.Setting>, key: string, value: string) {
    exists s :: s in (if Settings.HasKey(own, key) then own else global) && s.key == key && s.value == value
  }

  datatype Command = Command(program: string, args: seq<string>, env: map<string, string>)

  class ResticCommand {
    const binaryPath: string
    const repositoryUrl: string
    const repositoryPassword: string
    const cacheDir: Option<string>
    var environment: map<string, string>

    constructor (binaryPath: string, repositoryUrl: string, repositoryPassword: string, cacheDir: Option<string>)
      ensures this.binaryPath == binaryPath && this.repositoryUrl == repositoryUrl
      ensures this.repositoryPassword == repositoryPassword && this.cacheDir == cacheDir && environment == map[]
    {
      this.binaryPath := binaryPath;
      this.repositoryUrl := repositoryUrl;
      this.repositoryPassword := repositoryPassword;
      this.cacheDir := cacheDir;
      environment := map[];
    }

    method AddEnvironment(key: string, value: string)
      modifies this
      ensures environment == old(environment)[key := value]
    {
      environment := environment[key := value];
    }

    /**
     The variables of the repository, unless added ones take their place, and no others; the arguments are flags and
     values in the order paths, excludes, generated tags, tags of the job, extra arguments.
     */
    method BuildBackupCommand(job: BackupJob) returns (cmd: Command)
      ensures cmd.program == binaryPath
      ensures cmd.args ==
        ["backup", "--json"] + job.sourcePaths
        + Flagged("--exclude", job.excludePatterns.GetOr([]))
        + Flagged("--tag", ResticTags(job)) + Flagged("--tag", job.tags.GetOr([]))
        + (if job.resticArgs.JArray? then Strings(job.resticArgs.items) else [])
      ensures cmd.env.Keys ==
        environment.Keys + {"RESTIC_REPOSITORY", "RESTIC_PASSWORD"}
        + if cacheDir.Some? && cacheDir.value != "" then {"RESTIC_CACHE_DIR"} else {}
      ensures forall key :: key in environment ==> cmd.env[key] == environment[key]
      ensures "RESTIC_REPOSITORY" !in environment ==> cmd.env["RESTIC_REPOSITORY"] == repositoryUrl
      ensures "RESTIC_PASSWORD" !in environment ==> cmd.env["RESTIC_PASSWORD"] == repositoryPassword
      ensures "RESTIC_CACHE_DIR" !in environment && cacheDir.Some? && cacheDir.value != "" ==>
        cmd.env["RESTIC_CACHE_DIR"] == cacheDir.value
    {
      hide ResticTags, Flagged, Strings;
      var env := map["RESTIC_REPOSITORY" := repositoryUrl];
      env := env["RESTIC_PASSWORD" := repositoryPassword];
      if cacheDir.Some? && cacheDir.value != "" {
        env := env["RESTIC_CACHE_DIR" := cacheDir.value];
      }
      env := AddAll(env, environment);
      var args := BuildArgs(job);
      cmd := Command(binaryPath, args, env);
    }

    /** The arguments, pushed one by one. */
    method BuildArgs(job: BackupJob) returns (args: seq<string>)
      ensures args == BackupArgs(job)
    {
      hide ResticTags, Flagged, Strings;
      args := ["backup"];
      args := args + ["--json"];
      args := PushAll(args, job.sourcePaths);
      NoneFlagged(EXCLUDE, args);
      if job.excludePatterns.Some? {
        args := PushFlagged(args, EXCLUDE, job.excludePatterns.value);
      }
      var tags := GetResticTags(job);
      args := PushFlagged(args, TAG, tags);
      NoneFlagged(TAG, args);
      if job.tags.Some? {
        args := PushFlagged(args, TAG, job.tags.value);
      }
      if job.resticArgs.JArray? {
        args := PushStrings(args, job.resticArgs.items);
      }
    }
  }

  lemma NoneFlagged(flag: string, args: seq<string>)
    ensures args + Flagged(flag, []) == args
  {
  }

  /** Sets each variable of `more`, in whatever order the hash map yields them. */
  method AddAll(env: map<string, string>, more: map<string, string>) returns (r: map<string, string>)
    ensures r == env + more
  {
    r := env;
    var todo := more.Keys;
    while todo != {}
      invariant todo <= more.Keys
      invariant r.Keys == env.Keys + (more.Keys - todo)
      invariant forall key :: key in r ==> r[key] == if key in more && key !in todo then more[key] else env[key]
      decreases todo
    {
      ghost var some := AnElement(todo);
      var key :| key in todo;
      r := r[key := more[key]];
      todo := todo - {key};
    }
    assert r.Keys == (env + more).Keys;
  }

  method PushStrings(args: seq<string>, items: seq<Json>) returns (r: seq<string>)
    ensures r == args + Strings(items)
  {
    r := args;
    var k := 0;
    while k < |items|
      invariant 0 <= k <= |items|
      invariant r == args + Strings(items[..k])
    {
      assert items[..k + 1][..k] == items[..k];
      if items[k].JString? {
        r := r + [items[k].text];
      }
      k := k + 1;
    }
    assert items[..k] == items;
  }

  method PushAll(args: seq<string>, values: seq<string>) returns (r: seq<string>)
    ensures r == args + values
  {
    r := args;
    var k := 0;
    while k < |values|
      invariant 0 <= k <= |values|
      invariant r == args + values[..k]
    {
      r := r + [values[k]];
      k := k + 1;
    }
  }

  method PushFlagged(args: seq<string>, flag: string, values: seq<string>) returns (r: seq<string>)
    ensures r == args + Flagged(flag, values)
  {
    r := args;
    var k := 0;
    while k < |values|
      invariant 0 <= k <= |values|
      invariant r == args + Flagged(flag, values[..k])
    {
      assert values[..k + 1][..k] == values[..k];
      r := r + [flag];
      r := r + [values[k]];
      k := k + 1;
    }
    assert values[..k] == values;
  }

  // ---------- reading the arguments back ----------

  datatype Reading = Reading(paths: seq<string>, excludes: seq<string>, tags: seq<string>, extra: seq<string>)

  datatype Split = Split(values: seq<string>, rest: seq<string>)

  /** Everything up to the first flag is a path. */
  function TakePaths(args: seq<string>): Split {
    if args == [] || args[0] == EXCLUDE || args[0] == TAG then
      Split([], args)
    else
      var s := TakePaths(args[1..]);
      Split([args[0]] + s.values, s.rest)
  }

  /** The values of a run of one flag. */
  function TakeFlagged(flag: string, args: seq<string>): Split {
    if |args| < 2 || args[0] != flag then
      Split([], args)
    else
      var s := TakeFlagged(flag, args[2..]);
      Split([args[1]] + s.values, s.rest)
  }

  function ReadArgs(args: seq<string>): Option<Reading> {
    if |args| < 2 || args[0] != "backup" || args[1] != "--json" then
      None
    else
      var paths := TakePaths(args[2..]);
      var excludes := TakeFlagged(EXCLUDE, paths.rest);
      var tags := TakeFlagged(TAG, excludes.rest);
      Some(Reading(paths.values, excludes.values, tags.values, tags.rest))
  }

  /** What went into the command line of a job. */
  function WrittenBy(job: BackupJob): Reading {
    Reading(job.sourcePaths, job.excludePatterns.GetOr([]), ResticTags(job) + job.tags.GetOr([]),
            StringArgs(job.resticArgs))
  }

  predicate NoFlags(paths: seq<string>) {
    EXCLUDE !in paths && TAG !in paths
  }

  /** Extra arguments that read like one more tag. */
  predicate LooksLikeTag(extra: seq<string>) {
    |extra| >= 2 && extra[0] == TAG
  }

  lemma {:induction false} FlaggedConcat(flag: string, a: seq<string>, b: seq<string>)
    ensures Flagged(flag, a + b) == Flagged(flag, a) + Flagged(flag, b)
  {
    if b == [] {
      assert a + b == a;
    } else {
      FlaggedConcat(flag, a, b[..|b| - 1]);
      assert (a + b)[..|a + b| - 1] == a + b[..|b| - 1];
    }
  }

  lemma FlaggedFirst(flag: string, values: seq<string>)
    requires values != []
    ensures Flagged(flag, values) == [flag, values[0]] + Flagged(flag, values[1..])
  {
    FlaggedConcat(flag, values[..1], values[1..]);
    assert values == values[..1] + values[1..];
    assert values[..1][..0] == [];
    assert Flagged(flag, values[..1]) == [flag, values[0]];
  }

  lemma {:induction false} TakeFlaggedAll(flag: string, values: seq<string>, rest: seq<string>)
    ensures TakeFlagged(flag, Flagged(flag, values) + rest) ==
      Split(values + TakeFlagged(flag, rest).values, TakeFlagged(flag, rest).rest)
    decreases |values|
  {
    hide Flagged, TakeFlagged;
    if values == [] {
      NoneTaken(flag, rest);
    } else {
      var more := Flagged(flag, values[1..]) + rest;
      FlaggedFirst(flag, values);
      TakeFlaggedAll(flag, values[1..], rest);
      TakeOne(flag, values[0], more);
      assert Flagged(flag, values) + rest == [flag, values[0]] + more;
      assert [values[0]] + (values[1..] + TakeFlagged(flag, rest).values) == values + TakeFlagged(flag, rest).values;
    }
  }

  lemma NoneTaken(flag: string, rest: seq<string>)
    ensures Flagged(flag, []) + rest == rest
    ensures [] + TakeFlagged(flag, rest).values == TakeFlagged(flag, rest).values
  {
  }

  lemma TakeOne(flag: string, value: string, more: seq<string>)
    ensures TakeFlagged(flag, [flag, value] + more) ==
      Split([value] + TakeFlagged(flag, more).values, TakeFlagged(flag, more).rest)
  {
    assert ([flag, value] + more)[2..] == more;
  }

  /** The reader finds the paths exactly when none of them is a flag. */
  lemma {:induction false} TakePathsIff(paths: seq<string>, rest: seq<string>)
    requires rest != [] && (rest[0] == EXCLUDE || rest[0] == TAG)
    ensures NoFlags(paths) ==> TakePaths(paths + rest) == Split(paths, rest)
    ensures !NoFlags(paths) ==> |TakePaths(paths + rest).values| < |paths|
  {
    if paths == [] {
      assert paths + rest == rest;
    } else {
      TakePathsIff(paths[1..], rest);
      assert (paths + rest)[1..] == paths[1..] + rest;
      assert paths == [paths[0]] + paths[1..];
    }
  }

  /** The part of the command line after the paths. */
  function AfterPaths(job: BackupJob): seq<string> {
    Flagged(EXCLUDE, job.excludePatterns.GetOr([])) + (Flagged(TAG, WrittenBy(job).tags) + StringArgs(job.resticArgs))
  }

  lemma ArgsInParts(job: BackupJob)
    ensures BackupArgs(job) == ["backup", "--json"] + (job.sourcePaths + AfterPaths(job))
    ensures AfterPaths(job) != [] && (AfterPaths(job)[0] == EXCLUDE || AfterPaths(job)[0] == TAG)
  {
    hide ResticTags, Flagged, StringArgs;
    var e := Flagged(EXCLUDE, job.excludePatterns.GetOr([]));
    var a, c := Flagged(TAG, ResticTags(job)), Flagged(TAG, job.tags.GetOr([]));
    var p, x := job.sourcePaths, StringArgs(job.resticArgs);
    FlaggedConcat(TAG, ResticTags(job), job.tags.GetOr([]));
    Regroup(["backup", "--json"], p, e, a, c, x);
    AfterPathsStarts(job);
  }

  lemma Regroup(h: seq<string>, p: seq<string>, e: seq<string>, a: seq<string>, c: seq<string>, x: seq<string>)
    ensures h + p + e + a + c + x == h + (p + (e + ((a + c) + x)))
  {
  }

  lemma AfterPathsStarts(job: BackupJob)
    ensures AfterPaths(job) != [] && (AfterPaths(job)[0] == EXCLUDE || AfterPaths(job)[0] == TAG)
  {
    hide Flagged, StringArgs;
    FlaggedFirst(TAG, WrittenBy(job).tags);
    NoneFlagged(EXCLUDE, []);
    if job.excludePatterns.GetOr([]) != [] {
      FlaggedFirst(EXCLUDE, job.excludePatterns.GetOr([]));
    }
  }

  lemma ReadAfterPaths(job: BackupJob)
    ensures
      var extra := StringArgs(job.resticArgs);
      var excludes := TakeFlagged(EXCLUDE, AfterPaths(job));
      var tags := TakeFlagged(TAG, excludes.rest);
      && excludes.values == job.excludePatterns.GetOr([])
      && tags == Split(WrittenBy(job).tags + TakeFlagged(TAG, extra).values, TakeFlagged(TAG, extra).rest)
  {
    var extra := StringArgs(job.resticArgs);
    var tagged := Flagged(TAG, WrittenBy(job).tags) + extra;
    TakeFlaggedAll(EXCLUDE, job.excludePatterns.GetOr([]), tagged);
    FlaggedFirst(TAG, WrittenBy(job).tags);
    assert tagged[0] == TAG;
    TakeFlaggedAll(TAG, WrittenBy(job).tags, extra);
  }

  /**
   Reading the command line back gives what was written exactly when no path is a flag and no extra arguments read
   like a tag.
   */
  lemma RoundTripIff(job: BackupJob)
    ensures ReadArgs(BackupArgs(job)) == Some(WrittenBy(job)) <==>
      NoFlags(job.sourcePaths) && !LooksLikeTag(StringArgs(job.resticArgs))
  {
    hide ResticTags, StringArgs, BackupArgs, Flagged;
    var extra, rest := StringArgs(job.resticArgs), AfterPaths(job);
    ArgsInParts(job);
    TakePathsIff(job.sourcePaths, rest);
    var args := BackupArgs(job);
    assert args[2..] == job.sourcePaths + rest;
    if NoFlags(job.sourcePaths) {
      ReadAfterPaths(job);
      var x := TakeFlagged(TAG, extra);
      assert ReadArgs(args) == Some(WrittenBy(job).(tags := WrittenBy(job).tags + x.values, extra := x.rest));
      if LooksLikeTag(extra) {
        assert |WrittenBy(job).tags + x.values| > |WrittenBy(job).tags|;
      } else {
        assert x == Split([], extra);
        assert WrittenBy(job).tags + [] == WrittenBy(job).tags;
      }
    }
  }

  // ---------- which jobs share a command line ----------

  /** The arguments that a reading stands for. */
  function ArgsOf(r: Reading): seq<string> {
    ["backup", "--json"] + (r.paths + (Flagged(EXCLUDE, r.excludes) + (Flagged(TAG, r.tags) + r.extra)))
  }

  lemma {:induction false} PathsTaken(args: seq<string>)
    ensures TakePaths(args).values + TakePaths(args).rest == args
  {
    if !(args == [] || args[0] == EXCLUDE || args[0] == TAG) {
      PathsTaken(args[1..]);
    }
  }

  lemma {:induction false} FlaggedTaken(flag: string, args: seq<string>)
    ensures Flagged(flag, TakeFlagged(flag, args).values) + TakeFlagged(flag, args).rest == args
  {
    hide Flagged;
    if |args| < 2 || args[0] != flag {
      NoneTaken(flag, args);
    } else {
      var s := TakeFlagged(flag, args[2..]);
      FlaggedTaken(flag, args[2..]);
      FlaggedFirst(flag, [args[1]] + s.values);
      assert ([args[1]] + s.values)[1..] == s.values;
      assert args == [flag, args[1]] + args[2..];
    }
  }

  /** A reading leaves nothing out: the arguments can be put together from it again, whoever wrote them. */
  lemma ReadingIsLossless(args: seq<string>)
    requires ReadArgs(args).Some?
    ensures ArgsOf(ReadArgs(args).value) == args
  {
    hide Flagged, TakeFlagged, TakePaths;
    var paths := TakePaths(args[2..]);
    var excludes := TakeFlagged(EXCLUDE, paths.rest);
    PathsTaken(args[2..]);
    FlaggedTaken(EXCLUDE, paths.rest);
    FlaggedTaken(TAG, excludes.rest);
    assert args == ["backup", "--json"] + args[2..];
  }

  /** The tags of a job together with those that its extra arguments begin with. */
  function AllTags(job: BackupJob): seq<string> {
    WrittenBy(job).tags + TakeFlagged(TAG, StringArgs(job.resticArgs)).values
  }

  lemma ReadWithoutFlags(job: BackupJob)
    requires NoFlags(job.sourcePaths)
    ensures ReadArgs(BackupArgs(job)) ==
      Some(Reading(job.sourcePaths, job.excludePatterns.GetOr([]), AllTags(job),
                   TakeFlagged(TAG, StringArgs(job.resticArgs)).rest))
  {
    hide ResticTags, StringArgs, BackupArgs, Flagged;
    ArgsInParts(job);
    TakePathsIff(job.sourcePaths, AfterPaths(job));
    assert BackupArgs(job)[2..] == job.sourcePaths + AfterPaths(job);
    ReadAfterPaths(job);
  }

  /**
   Two jobs none of whose paths is a flag have the same command line if and only if they agree in paths, excludes, all
   tags and the rest of the extra arguments; and then they are one job by id and by name.
   */
  lemma SameCommandLineIff(a: BackupJob, b: BackupJob)
    requires NoFlags(a.sourcePaths) && NoFlags(b.sourcePaths)
    ensures BackupArgs(a) == BackupArgs(b) <==>
      && a.sourcePaths == b.sourcePaths && a.excludePatterns.GetOr([]) == b.excludePatterns.GetOr([])
      && AllTags(a) == AllTags(b)
      && TakeFlagged(TAG, StringArgs(a.resticArgs)).rest == TakeFlagged(TAG, StringArgs(b.resticArgs)).rest
    ensures BackupArgs(a) == BackupArgs(b) ==> a.id == b.id && a.name == b.name
  {
    hide ResticTags, StringArgs, BackupArgs, Flagged, TakeFlagged, AllTags, ReadArgs, ArgsOf;
    ReadWithoutFlags(a);
    ReadWithoutFlags(b);
    ReadingIsLossless(BackupArgs(a));
    ReadingIsLossless(BackupArgs(b));
    if BackupArgs(a) == BackupArgs(b) {
      SameTagsSameJob(a, b);
    }
  }

  lemma SameTagsSameJob(a: BackupJob, b: BackupJob)
    requires AllTags(a) == AllTags(b)
    ensures a.id == b.id && a.name == b.name
  {
    hide UuidText, StringArgs, TakeFlagged, After;
    assert AllTags(a)[0] == BACKUP_TAG + UuidText(a.id) && AllTags(b)[0] == BACKUP_TAG + UuidText(b.id);
    assert AllTags(a)[1] == NAME_TAG + a.name && AllTags(b)[1] == NAME_TAG + b.name;
    AfterUuidPrefix(BACKUP_TAG, a.id);
    AfterUuidPrefix(BACKUP_TAG, b.id);
    AfterPrefix(NAME_TAG, a.name);
    AfterPrefix(NAME_TAG, b.name);
  }

  /**
   Extra arguments that read like a tag give the command line of a job with that tag: no reader can tell the two jobs
   apart.
   */
  lemma ExtraTagIsAmbiguous(job: BackupJob, value: string, more: seq<Json>)
    ensures
      var a := job.(resticArgs := JArray([JString(TAG), JString(value)] + more));
      var b := job.(resticArgs := JArray(more), tags := Some(job.tags.GetOr([]) + [value]));
      a != b && BackupArgs(a) == BackupArgs(b)
  {
    hide ResticTags, Strings, Flagged;
    var own := job.tags.GetOr([]);
    TwoStrings(value, more);
    OneFlagged(TAG, own, value);
    TagsOf(job, JArray([JString(TAG), JString(value)] + more), job.tags);
    TagsOf(job, JArray(more), Some(own + [value]));
    var h := ["backup", "--json"] + job.sourcePaths + Flagged(EXCLUDE, job.excludePatterns.GetOr([]))
      + Flagged(TAG, ResticTags(job));
    assert h + Flagged(TAG, own) + ([TAG, value] + Strings(more)) ==
      h + (Flagged(TAG, own) + [TAG, value]) + Strings(more);
    assert |[JString(TAG), JString(value)] + more| != |more|;
  }

  lemma OneFlagged(flag: string, values: seq<string>, value: string)
    ensures Flagged(flag, values + [value]) == Flagged(flag, values) + [flag, value]
  {
    assert (values + [value])[..|values|] == values;
  }

  /** The generated tags depend on neither the extra arguments nor the custom tags. */
  lemma TagsOf(job: BackupJob, args: Json, tags: Option<seq<string>>)
    ensures ResticTags(job.(resticArgs := args, tags := tags)) == ResticTags(job)
  {
  }

  lemma TwoStrings(value: string, more: seq<Json>)
    ensures Strings([JString(TAG), JString(value)] + more) == [TAG, value] + Strings(more)
  {
    var two := [JString(TAG), JString(value)];
    StringsConcat(two, more);
    assert two[..1] == [JString(TAG)] && two[..1][..0] == [];
    assert Strings(two[..1]) == [TAG];
  }

  lemma {:induction false} StringsConcat(a: seq<Json>, b: seq<Json>)
    ensures Strings(a + b) == Strings(a) + Strings(b)
  {
    if b == [] {
      assert a + b == a;
    } else {
      StringsConcat(a, b[..|b| - 1]);
      assert (a + b)[..|a + b| - 1] == a + b[..|b| - 1];
    }
  }

  /** Paths that read like an exclude pattern give the command line of a job with that pattern. */
  lemma ExcludePathIsAmbiguous(job: BackupJob, pattern: string)
    ensures
      var a := job.(sourcePaths := job.sourcePaths + [EXCLUDE, pattern]);
      var b := job.(excludePatterns := Some([pattern] + job.excludePatterns.GetOr([])));
      a != b && BackupArgs(a) == BackupArgs(b)
  {
    var excludes := [pattern] + job.excludePatterns.GetOr([]);
    FlaggedFirst(EXCLUDE, excludes);
    assert excludes[1..] == job.excludePatterns.GetOr([]);
    assert |job.sourcePaths + [EXCLUDE, pattern]| != |job.sourcePaths|;
  }

  /** Paths that read like the tags of another job give the command line of that job: not even the id can be told. */
  lemma TagPathIsAmbiguous(job: BackupJob, other: Uuid, name: string)
    requires job.excludePatterns.GetOr([]) == []
    ensures
      var a := job.(sourcePaths := job.sourcePaths + [TAG, BACKUP_TAG + UuidText(other), TAG, NAME_TAG + name]);
      var b := job.(id := other, name := name, originName := None, accountId := None,
                    tags := Some(ResticTags(job) + job.tags.GetOr([])));
      a != b && BackupArgs(a) == BackupArgs(b)
  {
    hide UuidText, StringArgs, Flagged, AfterPaths;
    var paths := [TAG, BACKUP_TAG + UuidText(other), TAG, NAME_TAG + name];
    var a := job.(sourcePaths := job.sourcePaths + paths);
    var b := job.(id := other, name := name, originName := None, accountId := None,
                  tags := Some(ResticTags(job) + job.tags.GetOr([])));
    assert ResticTags(a) == ResticTags(job);
    assert ResticTags(b) == [BACKUP_TAG + UuidText(other), NAME_TAG + name];
    TwoFlagged(BACKUP_TAG + UuidText(other), NAME_TAG + name);
    FlaggedConcat(TAG, ResticTags(job), job.tags.GetOr([]));
    assert |a.sourcePaths| != |b.sourcePaths|;
    NoneFlagged(EXCLUDE, ["backup", "--json"] + a.sourcePaths);
    NoneFlagged(EXCLUDE, ["backup", "--json"] + b.sourcePaths);
    MovedOver(["backup", "--json"], job.sourcePaths, paths, Flagged(TAG, ResticTags(job)),
              Flagged(TAG, job.tags.GetOr([])), StringArgs(job.resticArgs));
  }

  lemma TwoFlagged(first: string, second: string)
    ensures Flagged(TAG, [first, second]) == [TAG, first, TAG, second]
  {
    FlaggedFirst(TAG, [first, second]);
    FlaggedFirst(TAG, [second]);
    assert [first, second][1..] == [second] && [second][1..] == [];
  }

  lemma MovedOver(h: seq<string>, p: seq<string>, q: seq<string>, a: seq<string>, c: seq<string>, x: seq<string>)
    ensures h + (p + q) + a + c + x == h + p + q + (a + c) + x
  {
  }
}
