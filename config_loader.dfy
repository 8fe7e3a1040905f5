/**
 * ConfigLoader: reads KEY=VALUE lines from the .env file into the process
 * environment once, adds the APP_ENV default, checks the required keys, and
 * answers typed lookups (get, getInt, getArray, getBool) and the grouped
 * system, upload and OTP settings.
 */
module ConfigLoader {
  import opened Wrappers
  import opened Strings
  import opened Php
  import Seqs

  type Env = map<string, string>

  const RequiredKeys: seq<string> := ["JWT_SECRET", "DB_HOST", "DB_NAME", "UPLOAD_BASE_URL", "UPLOAD_DIR_PATH"]

  /** The characters stripped from both ends of a value after trimming. */
  const Quotes: set<char> := {'"', '\''}

  function Lookup(e: Env, key: string): Option<string>
  {
    if key in e then Some(e[key]) else None
  }

  // ---------------------------------------------------------------------------
  // The .env file

  predicate IsComment(line: string)
  {
    var t := Trim(line);
    |t| > 0 && t[0] == '#'
  }

  /** The key and value one line sets: comments and lines without '=' set nothing. */
  function ParseLine(line: string): (r: Option<(string, string)>)
    ensures r.Some? ==> !IsComment(line) && '=' in line
    ensures r.Some? ==> '=' !in r.value.0
    ensures !IsComment(line) && '=' in line ==> r.Some?
  {
    if IsComment(line) then None
    else if '=' in line then
      var parts := SplitAtFirst(line, '=');
      var key := Trim(parts.0);
      assert '=' !in key by {
        assert key == parts.0[|parts.0| - |TrimLeftBy(parts.0, Blanks)|..][..|key|];
        ContainsNoneSlice(parts.0, '=', |parts.0| - |TrimLeftBy(parts.0, Blanks)|, |key|);
      }
      Some((key, TrimChars(Trim(parts.1), Quotes)))
    else None
  }

  lemma ContainsNoneSlice(s: string, c: char, lo: nat, len: nat)
    requires c !in s && lo <= |s| && len <= |s| - lo
    ensures c !in s[lo..][..len]
  {
    forall k | 0 <= k < len ensures s[lo..][..len][k] != c {
      assert s[lo..][..len][k] == s[lo + k];
    }
  }

  /** A line written as key=value, with a clean key and value, reads back as that pair. */
  lemma ParseLineOfSetting(key: string, value: string)
    requires |key| > 0 && '=' !in key && key[0] != '#'
    requires key[0] !in Blanks && key[|key| - 1] !in Blanks
    requires |value| == 0 || (value[0] !in Blanks + Quotes && value[|value| - 1] !in Blanks + Quotes)
    ensures ParseLine(key + "=" + value) == Some((key, value))
  {
    var line := key + "=" + value;
    assert line[0] == key[0];
    TrimLeftFixed(line, Blanks);
    if |value| == 0 {
      assert line[|line| - 1] == '=';
    } else {
      assert line[|line| - 1] == value[|value| - 1];
    }
    TrimRightFixed(line, Blanks);
    assert !IsComment(line);
    assert line[|key|] == '=';
    var parts := SplitAtFirst(line, '=');
    SplitAtFirstUnique(line, key, value, parts.0, parts.1);
    TrimLeftFixed(key, Blanks);
    TrimRightFixed(key, Blanks);
    TrimLeftFixed(value, Blanks);
    TrimRightFixed(value, Blanks);
    TrimLeftFixed(value, Quotes);
    TrimRightFixed(value, Quotes);
  }

  /** The split at the first '=' is the only one whose left part has no '='. */
  lemma SplitAtFirstUnique(line: string, k1: string, v1: string, k2: string, v2: string)
    requires line == k1 + "=" + v1 && line == k2 + "=" + v2
    requires '=' !in k1 && '=' !in k2
    ensures k1 == k2 && v1 == v2
  {
    FirstSeparator(line, k1, v1);
    FirstSeparator(line, k2, v2);
    assert |k1| == |k2|;
    assert k1 == line[..|k1|] == k2;
    assert v1 == line[|k1| + 1..] == v2;
  }

  lemma FirstSeparator(line: string, k: string, v: string)
    requires line == k + "=" + v && '=' !in k
    ensures line[|k|] == '='
    ensures forall j :: 0 <= j < |k| ==> line[j] != '='
  {
    forall j | 0 <= j < |k| ensures line[j] != '=' {
      assert line[j] == k[j];
    }
  }

  function Apply(e: Env, line: string): Env
  {
    match ParseLine(line)
    case None => e
    case Some(kv) => e[kv.0 := kv.1]
  }

  /** The environment after loadEnvFile() has processed the lines in order. */
  function ApplyLines(e: Env, lines: seq<string>): Env
    decreases |lines|
  {
    if |lines| == 0 then e else Apply(ApplyLines(e, lines[..|lines| - 1]), lines[|lines| - 1])
  }

  /** The value the last line setting key gives it. */
  function LastSetting(lines: seq<string>, key: string): Option<string>
    decreases |lines|
  {
    if |lines| == 0 then None
    else
      var p := ParseLine(lines[|lines| - 1]);
      if p.Some? && p.value.0 == key then Some(p.value.1)
      else LastSetting(lines[..|lines| - 1], key)
  }

  /** A key ends up with its last setting in the file, or keeps the value it had. */
  lemma {:induction false} ApplyLinesLookup(e: Env, lines: seq<string>, key: string)
    ensures Lookup(ApplyLines(e, lines), key) == if LastSetting(lines, key).Some? then LastSetting(lines, key) else Lookup(e, key)
    decreases |lines|
  {
    if |lines| > 0 {
      ApplyLinesLookup(e, lines[..|lines| - 1], key);
    }
  }

  /** Loading the same file a second time changes nothing. */
  lemma ApplyLinesIdempotent(e: Env, lines: seq<string>)
    ensures ApplyLines(ApplyLines(e, lines), lines) == ApplyLines(e, lines)
  {
    var once := ApplyLines(e, lines);
    var twice := ApplyLines(once, lines);
    forall key ensures Lookup(twice, key) == Lookup(once, key) {
      ApplyLinesLookup(once, lines, key);
      ApplyLinesLookup(e, lines, key);
    }
    assert forall key :: key in twice <==> key in once by {
      forall key ensures key in twice <==> key in once {
        assert Lookup(twice, key) == Lookup(once, key);
      }
    }
    forall key | key in once ensures twice[key] == once[key] {
      assert Lookup(twice, key) == Lookup(once, key);
    }
  }

  // ---------------------------------------------------------------------------
  // Defaults and the required keys

  function WithDefaults(e: Env): (r: Env)
    ensures "APP_ENV" in r
    ensures forall key :: key != "APP_ENV" ==> Lookup(r, key) == Lookup(e, key)
  {
    if "APP_ENV" in e then e else e["APP_ENV" := "development"]
  }

  /** empty() of the environment entry for a key. */
  predicate Unset(e: Env, key: string)
  {
    key !in e || EmptyString(e[key])
  }

  /** The keys among `keys` whose setting is empty, in order. */
  function MissingAmong(e: Env, keys: seq<string>): (r: seq<string>)
    ensures forall i :: 0 <= i < |r| ==> r[i] in keys && Unset(e, r[i])
    ensures forall i :: 0 <= i < |keys| && Unset(e, keys[i]) ==> keys[i] in r
  {
    Seqs.FilterAt(keys, UnsetTest(e));
    Seqs.Filter(keys, UnsetTest(e))
  }

  function UnsetTest(e: Env): string -> bool
  {
    (k: string) => Unset(e, k)
  }

  predicate IsDevelopment(e: Env)
  {
    Lookup(e, "APP_ENV") == Some("development")
  }

  /** The settings the file makes on its own, later lines winning. */
  function FileSettings(lines: seq<string>): Env
  {
    ApplyLines(map[], lines)
  }

  /** Loading a file overrides the environment with the file's settings. */
  lemma {:induction false} ApplyLinesOverrides(e: Env, lines: seq<string>)
    ensures ApplyLines(e, lines) == e + FileSettings(lines)
    decreases |lines|
  {
    if |lines| == 0 {
      assert e + map[] == e;
    } else {
      var init := lines[..|lines| - 1];
      ApplyLinesOverrides(e, init);
      ApplyLinesOverrides(map[], init);
      var p := ParseLine(lines[|lines| - 1]);
      if p.Some? {
        UpdateAfterUnion(e, FileSettings(init), p.value.0, p.value.1);
      }
    }
  }

  lemma UpdateAfterUnion(e: Env, f: Env, k: string, v: string)
    ensures (e + f)[k := v] == e + f[k := v]
  {
  }

  /** The environment load() leaves behind, file first, then defaults. */
  function Prepared(e: Env, envFile: Option<seq<string>>): Env
  {
    WithDefaults(if envFile.Some? then e + FileSettings(envFile.value) else e)
  }

  datatype LoadResult =
    | AlreadyLoaded
    | Loaded(missing: seq<string>)      // missing keys are only logged
    | Failed(missing: seq<string>)      // the development-mode exception

  /** validateRequiredConfig(): missing keys are an error only in development. */
  function Outcome(e: Env, required: seq<string>): (r: LoadResult)
    ensures r.Failed? <==> (exists i :: 0 <= i < |required| && Unset(e, required[i])) && IsDevelopment(e)
    ensures r.Loaded? ==> forall i :: 0 <= i < |r.missing| ==> Unset(e, r.missing[i])
  {
    var missing := MissingAmong(e, required);
    assert |missing| > 0 ==> missing[0] in required;
    if |missing| > 0 && IsDevelopment(e) then Failed(missing) else Loaded(missing)
  }

  /**
   * load() as written, for a list of required keys: when one is missing,
   * validateRequiredConfig() asks isDevelopment(), which goes through get(),
   * which calls load() again while the loaded flag is still false.  fuel
   * bounds the nesting; None means no call returned within it.
   */
  function LoadAsWritten(e: Env, envFile: Option<seq<string>>, required: seq<string>, fuel: nat): Option<Env>
    decreases fuel
  {
    if fuel == 0 then None
    else
      var p := Prepared(e, envFile);
      if |MissingAmong(p, required)| == 0 then Some(p)
      else LoadAsWritten(p, envFile, required, fuel - 1)
  }

  /** With a required key missing, load() as written recurses without end, whatever APP_ENV says. */
  lemma MissingKeyLoadNeverReturns(e: Env, envFile: Option<seq<string>>, required: seq<string>, fuel: nat)
    requires |MissingAmong(Prepared(e, envFile), required)| > 0
    ensures LoadAsWritten(e, envFile, required, fuel) == None
  {
    if fuel > 0 {
      PreparedIdempotent(e, envFile);
      FixedPointNeverReturns(Prepared(e, envFile), envFile, required, fuel - 1);
    }
  }

  lemma {:induction false} FixedPointNeverReturns(p: Env, envFile: Option<seq<string>>, required: seq<string>, fuel: nat)
    requires Prepared(p, envFile) == p && |MissingAmong(p, required)| > 0
    ensures LoadAsWritten(p, envFile, required, fuel) == None
    decreases fuel
  {
    if fuel > 0 {
      FixedPointNeverReturns(p, envFile, required, fuel - 1);
    }
  }

  /** With every required key set, load() as written returns the prepared environment. */
  lemma CompleteLoadReturns(e: Env, envFile: Option<seq<string>>, required: seq<string>, fuel: nat)
    requires fuel > 0 && |MissingAmong(Prepared(e, envFile), required)| == 0
    ensures LoadAsWritten(e, envFile, required, fuel) == Some(Prepared(e, envFile))
  {
  }

  /** Preparing an already prepared environment again changes nothing. */
  lemma PreparedIdempotent(e: Env, envFile: Option<seq<string>>)
    ensures Prepared(Prepared(e, envFile), envFile) == Prepared(e, envFile)
  {
    if envFile.Some? {
      var f := FileSettings(envFile.value);
      var p := Prepared(e, envFile);
      assert p + f == p;
    }
  }

  /** The static state of ConfigLoader: the environment array and the loaded flag. */
  class Loader {
    const required: seq<string>
    var env: Env
    var loaded: bool

    constructor (initial: Env)
      ensures env == initial && !loaded && required == RequiredKeys
    {
      required := RequiredKeys;
      env := initial;
      loaded := false;
    }

    /**
     * load(), with the required-key check reading APP_ENV directly.  A load
     * that throws leaves the file's settings in place and the flag unset.
     */
    method Load(envFile: Option<seq<string>>) returns (r: LoadResult)
      modifies this
      ensures old(loaded) ==> r == AlreadyLoaded && env == old(env) && loaded
      ensures !old(loaded) ==> env == Prepared(old(env), envFile) && r == Outcome(env, required)
      ensures !old(loaded) ==> loaded == !r.Failed?
    {
      if loaded {
        return AlreadyLoaded;
      }
      if envFile.Some? {
        LoadEnvFile(envFile.value);
        ApplyLinesOverrides(old(env), envFile.value);
      }
      r := SetDefaults();
      if !r.Failed? {
        loaded := true;
      }
    }

    /** setDefaults(), ending with validateRequiredConfig(). */
    method SetDefaults() returns (r: LoadResult)
      modifies this
      ensures env == WithDefaults(old(env)) && r == Outcome(env, required) && loaded == old(loaded)
    {
      if "APP_ENV" !in env {
        env := env["APP_ENV" := "development"];
      }
      r := Outcome(env, required);
    }

    /** loadEnvFile(): each line's setting in turn, later lines winning. */
    method LoadEnvFile(lines: seq<string>)
      modifies this
      ensures env == ApplyLines(old(env), lines) && loaded == old(loaded)
    {
      var i := 0;
      while i < |lines|
        invariant 0 <= i <= |lines|
        invariant env == ApplyLines(old(env), lines[..i]) && loaded == old(loaded)
      {
        assert lines[..i + 1][..i] == lines[..i];
        var p := ParseLine(lines[i]);
        if p.Some? {
          env := env[p.value.0 := p.value.1];
        }
        assert env == Apply(ApplyLines(old(env), lines[..i]), lines[i]);
        assert lines[..i + 1][i] == lines[i];
        i := i + 1;
      }
      assert lines[..|lines|] == lines;
    }
  }

  // ---------------------------------------------------------------------------
  // Typed lookups on a loaded environment

  /** getInt(): the key's value as an integer, or the default. */
  function GetInt(e: Env, key: string, default: int): (r: int)
    ensures key !in e ==> r == default
    ensures key in e ==> r == IntVal(e[key])
  {
    if key in e then IntVal(e[key]) else default
  }

  /** The non-empty trimmed items of a comma list, as array_filter() keeps them. */
  function CommaItems(v: string): (r: seq<string>)
    ensures forall i :: 0 <= i < |r| ==> !EmptyString(r[i]) && ',' !in r[i]
  {
    var parts := Split(v, ',');
    var trimmed := seq(|parts|, i requires 0 <= i < |parts| => Trim(parts[i]));
    assert forall i :: 0 <= i < |trimmed| ==> ',' !in trimmed[i] by {
      forall i | 0 <= i < |trimmed| ensures ',' !in trimmed[i] {
        var t := parts[i];
        var lo := |t| - |TrimLeftBy(t, Blanks)|;
        ContainsNoneSlice(t, ',', lo, |trimmed[i]|);
      }
    }
    Seqs.FilterAt(trimmed, ItemKept);
    Seqs.Filter(trimmed, ItemKept)
  }

  /** array_filter() without a callback drops the falsy strings. */
  function ItemKept(s: string): bool
  {
    !EmptyString(s)
  }

  /** getArray(): the key's value split into a list, or the default. */
  function GetArray(e: Env, key: string, default: seq<string>): (r: seq<string>)
    ensures key !in e ==> r == default
    ensures key in e ==> forall i :: 0 <= i < |r| ==> !EmptyString(r[i])
  {
    if key in e then CommaItems(e[key]) else default
  }

  /** A comma list of clean items reads back as those items. */
  lemma CommaItemsOfList(items: seq<string>)
    requires |items| >= 1
    requires forall i :: 0 <= i < |items| ==> ',' !in items[i] && !EmptyString(items[i]) && Trim(items[i]) == items[i]
    ensures CommaItems(Join(items, ',')) == items
  {
    SplitJoin(items, ',');
    CommaItemsOfParts(Join(items, ','), items);
  }

  /** Text that splits into clean items yields exactly those items. */
  lemma CommaItemsOfParts(v: string, items: seq<string>)
    requires Split(v, ',') == items
    requires forall i :: 0 <= i < |items| ==> !EmptyString(items[i]) && Trim(items[i]) == items[i]
    ensures CommaItems(v) == items
  {
    var trimmed := seq(|items|, i requires 0 <= i < |items| => Trim(items[i]));
    assert trimmed == items;
    Seqs.FilterAll(items, ItemKept);
  }

  const TrueWords: seq<Value> := [Str("true"), Str("1"), Str("yes"), Str("on")]

  /** getBool(): the lowered text loosely matches true, 1, yes or on. */
  function GetBool(e: Env, key: string, default: bool): (r: bool)
    ensures key !in e ==> r == default
    ensures key in e ==> (r <==> InArrayLoose(Str(ToLower(e[key])), TrueWords))
  {
    if key in e then InArrayLoose(Str(ToLower(e[key])), TrueWords) else default
  }

  /** Loose comparison makes "01" a true setting, as "1" is. */
  lemma GetBoolReadsNumericOne(e: Env, key: string)
    requires key in e && e[key] == "01"
    ensures GetBool(e, key, false)
  {
    assert ToLower(e[key]) == "01";
    OhOneLooselyOne();
    assert TrueWords[1] == Str("1");
  }

  lemma OhOneLooselyOne()
    ensures LooseEq(Str("01"), Str("1"))
  {
    OhOneNumeric();
    OneNumeric();
    ReadOhOne();
    ReadOne();
  }

  lemma OhOneNumeric()
    ensures IsIntString("01")
  {
    assert AllDigits("01");
    DigitsAreIntString("01");
  }

  lemma OneNumeric()
    ensures IsIntString("1")
  {
    assert AllDigits("1");
    DigitsAreIntString("1");
  }

  lemma ReadOhOne()
    ensures IntVal("01") == 1
  {
    var d := "1";
    assert d[..0] == "";
    assert DigitsValue(d) == 1;
    assert "0" + d == "01";
    DigitsValueLeadingZeros("0", d);
  }

  lemma ReadOne()
    ensures IntVal("1") == 1
  {
    var d := "1";
    assert d[..0] == "";
    assert DigitsValue(d) == 1;
    assert "" + d == "1";
    DigitsValueLeadingZeros("", d);
  }

  // ---------------------------------------------------------------------------
  // Grouped settings

  datatype SystemConfig = SystemConfig(
    apiBasePath: string, defaultVolume: int, defaultDelay: string, defaultAlertOffset: string,
    defaultAppStatus: int, pillSlotMin: int, pillSlotMax: int, timingIdMin: int, timingIdMax: int)

  function GetString(e: Env, key: string, default: string): string
  {
    if key in e then e[key] else default
  }

  /** getSystemConfig(): each setting or its default. */
  function SystemConfigOf(e: Env): (c: SystemConfig)
    ensures "DEFAULT_VOLUME" !in e ==> c.defaultVolume == 50
    ensures "DEFAULT_DELAY" !in e ==> c.defaultDelay == "00:00:30"
    ensures "DEFAULT_ALERT_OFFSET" !in e ==> c.defaultAlertOffset == "00:00:10"
    ensures "DEFAULT_APP_STATUS" !in e ==> c.defaultAppStatus == 0
    ensures "API_BASE_PATH" !in e ==> c.apiBasePath == "/pill-reminder/api"
  {
    SystemConfig(
      GetString(e, "API_BASE_PATH", "/pill-reminder/api"),
      GetInt(e, "DEFAULT_VOLUME", 50),
      GetString(e, "DEFAULT_DELAY", "00:00:30"),
      GetString(e, "DEFAULT_ALERT_OFFSET", "00:00:10"),
      GetInt(e, "DEFAULT_APP_STATUS", 0),
      GetInt(e, "PILL_SLOT_MIN", 1),
      GetInt(e, "PILL_SLOT_MAX", 7),
      GetInt(e, "TIMING_ID_MIN", 1),
      GetInt(e, "TIMING_ID_MAX", 7))
  }

  datatype OtpConfig = OtpConfig(
    enabled: bool, length: int, expiryMinutes: int, emailEnabled: bool,
    rateLimitMinutes: int, maxAttempts: int)

  /** getOtpConfig(). */
  function OtpConfigOf(e: Env): (c: OtpConfig)
    ensures "OTP_ENABLED" !in e ==> c.enabled
    ensures "OTP_LENGTH" !in e ==> c.length == 6
    ensures "OTP_EXPIRY_MINUTES" !in e ==> c.expiryMinutes == 15
    ensures "OTP_RATE_LIMIT_MINUTES" !in e ==> c.rateLimitMinutes == 1
    ensures "OTP_MAX_ATTEMPTS" !in e ==> c.maxAttempts == 5
  {
    OtpConfig(
      GetBool(e, "OTP_ENABLED", true),
      GetInt(e, "OTP_LENGTH", 6),
      GetInt(e, "OTP_EXPIRY_MINUTES", 15),
      GetBool(e, "OTP_EMAIL_ENABLED", true),
      GetInt(e, "OTP_RATE_LIMIT_MINUTES", 1),
      GetInt(e, "OTP_MAX_ATTEMPTS", 5))
  }

  datatype UploadConfig = UploadConfig(
    baseUrl: string, dirPath: string, maxSize: int,
    allowedExtensions: seq<string>, allowedMimeTypes: seq<string>)

  /** getUploadConfig(). */
  function UploadConfigOf(e: Env): (c: UploadConfig)
    ensures "MAX_UPLOAD_SIZE" !in e ==> c.maxSize == 2097152
    ensures "ALLOWED_EXTENSIONS" !in e ==> c.allowedExtensions == ["jpg", "jpeg", "png"]
    ensures "ALLOWED_MIME_TYPES" !in e ==> c.allowedMimeTypes == ["image/jpeg", "image/png"]
  {
    UploadConfig(
      GetString(e, "UPLOAD_BASE_URL", ""),
      GetString(e, "UPLOAD_DIR_PATH", ""),
      GetInt(e, "MAX_UPLOAD_SIZE", 2097152),
      GetArray(e, "ALLOWED_EXTENSIONS", ["jpg", "jpeg", "png"]),
      GetArray(e, "ALLOWED_MIME_TYPES", ["image/jpeg", "image/png"]))
  }
}
