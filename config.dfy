/**
 * Application settings read from the process environment (config.py): the
 * database URL rewriting, the reminder offsets, the CalDAV URL and the check
 * that the required variables are set.
 */
module Config {
  import opened Wrappers
  import opened Text

  /** The process environment: variable name to value. */
  type Env = map<string, string>

  /** `os.getenv(name)`. */
  function GetEnv(env: Env, name: string): Option<string> {
    if name in env then Some(env[name]) else None
  }

  /** `os.getenv(name, default)`. */
  function GetEnvOr(env: Env, name: string, default: string): string {
    GetEnv(env, name).GetOr(default)
  }

  /** Python truthiness of an optional setting: both None and "" are false. */
  predicate Truthy(v: Option<string>) {
    v.Some? && v.value != ""
  }

  const PostgresScheme: string := "postgresql://"
  const PsycopgScheme: string := "postgresql+psycopg2://"
  const AsyncpgScheme: string := "postgresql+asyncpg://"
  const DefaultDatabaseUrl: string := "sqlite+aiosqlite:///./calendar_bot.db"
  const DefaultNotificationTimes: string := "15,60"
  const DefaultTimezone: string := "Europe/Moscow"
  const CaldavBase: string := "https://caldav.yandex.ru/calendars/"

  // ---------------------------------------------------------------------------
  // DATABASE_URL

  /** `_normalize_database_url`: a PostgreSQL URL is pointed at the asyncpg driver; any other URL is kept. */
  function NormalizeDatabaseUrl(url: string): (r: string)
    ensures StartsWith(url, PostgresScheme) ==> r == AsyncpgScheme + url[|PostgresScheme|..]
    ensures StartsWith(url, PsycopgScheme) ==> r == AsyncpgScheme + url[|PsycopgScheme|..]
    ensures !StartsWith(url, PostgresScheme) && !StartsWith(url, PsycopgScheme) ==> r == url
  {
    // The two prefixes differ at index 10 (':' against '+'), so at most one applies.
    assert StartsWith(url, PostgresScheme) ==> url[10] == ':';
    assert StartsWith(url, PsycopgScheme) ==> url[10] == '+';
    if StartsWith(url, PostgresScheme) then ReplaceFirst(url, PostgresScheme, AsyncpgScheme)
    else if StartsWith(url, PsycopgScheme) then ReplaceFirst(url, PsycopgScheme, AsyncpgScheme)
    else url
  }

  /** A normalised URL never starts with either of the two prefixes that normalisation rewrites. */
  lemma NormalizedHasNoRewrittenScheme(url: string)
    ensures !StartsWith(NormalizeDatabaseUrl(url), PostgresScheme)
    ensures !StartsWith(NormalizeDatabaseUrl(url), PsycopgScheme)
  {
    var r := NormalizeDatabaseUrl(url);
    if StartsWith(url, PostgresScheme) || StartsWith(url, PsycopgScheme) {
      assert r[..|AsyncpgScheme|] == AsyncpgScheme;
      assert r[10] == '+' && PostgresScheme[10] == ':';
      assert r[11] == 'a' && PsycopgScheme[11] == 'p';
    }
  }

  /** Normalising twice is normalising once. */
  lemma NormalizeIdempotent(url: string)
    ensures NormalizeDatabaseUrl(NormalizeDatabaseUrl(url)) == NormalizeDatabaseUrl(url)
  {
    NormalizedHasNoRewrittenScheme(url);
  }

  /** The default SQLite URL is left as it is. */
  lemma DefaultDatabaseUrlKept()
    ensures NormalizeDatabaseUrl(DefaultDatabaseUrl) == DefaultDatabaseUrl
  {
    var url := DefaultDatabaseUrl;
    assert url[0] == 's' && PostgresScheme[0] == 'p' && PsycopgScheme[0] == 'p';
    assert !StartsWith(url, PostgresScheme) by {
      assert url[..|PostgresScheme|][0] == url[0];
    }
    assert !StartsWith(url, PsycopgScheme) by {
      assert url[..|PsycopgScheme|][0] == url[0];
    }
  }

  // ---------------------------------------------------------------------------
  // NOTIFICATION_TIMES

  predicate IsDigit(c: char) {
    '0' <= c <= '9'
  }

  predicate AllDigits(s: string) {
    forall i :: 0 <= i < |s| ==> IsDigit(s[i])
  }

  /** The value of a string of decimal digits. */
  function DigitsValue(ds: string): nat
    requires AllDigits(ds)
  {
    if ds == [] then 0
    else DigitsValue(ds[..|ds| - 1]) * 10 + (ds[|ds| - 1] as int - '0' as int)
  }

  /**
   * Python's `int(s)` on a string: surrounding whitespace, an optional sign and
   * at least one decimal digit; None where Python raises ValueError.
   */
  function ParseInt(s: string): (r: Option<int>)
    ensures r.Some? ==> Strip(s) != []
  {
    var t := Strip(s);
    if t != [] && (t[0] == '-' || t[0] == '+') then
      var ds := t[1..];
      if ds != [] && AllDigits(ds) then
        var magnitude: int := DigitsValue(ds);
        Some(if t[0] == '-' then -magnitude else magnitude)
      else None
    else if t != [] && AllDigits(t) then Some(DigitsValue(t))
    else None
  }

  /** `str(n)` for a natural number: its decimal digits without leading zeros. */
  function DecimalString(n: nat): (s: string)
    ensures s != [] && AllDigits(s)
    ensures DigitsValue(s) == n
  {
    var last := [('0' as int + n % 10) as char];
    if n < 10 then last else DecimalString(n / 10) + last
  }

  /** `int(str(n)) == n`. */
  lemma ParseDecimal(n: nat)
    ensures ParseInt(DecimalString(n)) == Some(n)
  {
    var s := DecimalString(n);
    StripUnchanged(s);
  }

  /** `int` accepts whitespace around the number: `int(" 15 ") == 15`. */
  lemma ParsePadded(ws1: string, n: nat, ws2: string)
    requires forall k :: 0 <= k < |ws1| ==> IsSpace(ws1[k])
    requires forall k :: 0 <= k < |ws2| ==> IsSpace(ws2[k])
    ensures ParseInt(ws1 + DecimalString(n) + ws2) == Some(n)
  {
    StripPadded(ws1, DecimalString(n), ws2);
  }

  /** A string of zeros is worth nothing. */
  lemma {:induction false} DigitsZeros(zeros: string)
    requires forall k :: 0 <= k < |zeros| ==> zeros[k] == '0'
    ensures AllDigits(zeros) && DigitsValue(zeros) == 0
    decreases |zeros|
  {
    if zeros != [] {
      DigitsZeros(zeros[..|zeros| - 1]);
    }
  }

  /** Leading zeros do not change the value of a digit string. */
  lemma {:induction false} DigitsZeroPrefix(zeros: string, ds: string)
    requires forall k :: 0 <= k < |zeros| ==> zeros[k] == '0'
    requires AllDigits(ds)
    ensures AllDigits(zeros + ds) && DigitsValue(zeros + ds) == DigitsValue(ds)
    decreases |ds|
  {
    if ds == [] {
      assert zeros + ds == zeros;
      DigitsZeros(zeros);
    } else {
      var init := ds[..|ds| - 1];
      DigitsZeroPrefix(zeros, init);
      assert (zeros + ds)[..|zeros + ds| - 1] == zeros + init;
      assert (zeros + ds)[|zeros + ds| - 1] == ds[|ds| - 1];
    }
  }

  /** `int` of a non-empty digit string is its value. */
  lemma ParseDigits(ds: string)
    requires ds != [] && AllDigits(ds)
    ensures ParseInt(ds) == Some(DigitsValue(ds))
  {
    assert IsDigit(ds[0]) && IsDigit(ds[|ds| - 1]);
    StripUnchanged(ds);
  }

  /** `int` accepts leading zeros: `int("007") == 7`. */
  lemma ParseLeadingZeros(zeros: string, n: nat)
    requires forall k :: 0 <= k < |zeros| ==> zeros[k] == '0'
    ensures ParseInt(zeros + DecimalString(n)) == Some(n)
  {
    DigitsZeroPrefix(zeros, DecimalString(n));
    ParseDigits(zeros + DecimalString(n));
  }

  /** `int` accepts a sign in front of the digits: `int(" -15 ") == -15` and `int("+15") == 15`. */
  lemma ParseSigned(ws1: string, sign: char, n: nat, ws2: string)
    requires sign == '-' || sign == '+'
    requires forall k :: 0 <= k < |ws1| ==> IsSpace(ws1[k])
    requires forall k :: 0 <= k < |ws2| ==> IsSpace(ws2[k])
    ensures ParseInt(ws1 + [sign] + DecimalString(n) + ws2) == Some(if sign == '-' then -(n as int) else n as int)
  {
    var digits := DecimalString(n);
    var core := [sign] + digits;
    assert core[|core| - 1] == digits[|digits| - 1];
    assert ws1 + [sign] + digits + ws2 == ws1 + core + ws2;
    StripPadded(ws1, core, ws2);
    assert core[1..] == digits;
  }

  /**
   * `int` refuses a text that, stripped, has a character other than a digit
   * after the optional sign, or no digit at all.
   */
  lemma ParseRejects(s: string, j: nat)
    requires var t := Strip(s); var first := if t != [] && (t[0] == '-' || t[0] == '+') then 1 else 0;
      (first <= j < |t| && !IsDigit(t[j])) || |t| == first
    ensures ParseInt(s).None?
  {
    var t := Strip(s);
    if t != [] && (t[0] == '-' || t[0] == '+') && 1 <= j < |t| {
      assert !IsDigit(t[1..][j - 1]);
    }
  }

  /**
   * `[int(x) for x in raw.split(",")]`: Failure(x) carries the first piece
   * `int` refuses (the ValueError that stops the module from loading).
   */
  function ParseInts(pieces: seq<string>): (r: Result<seq<int>, string>)
    ensures r.Success? ==> |r.value| == |pieces|
    ensures r.Success? ==> forall k :: 0 <= k < |pieces| ==> ParseInt(pieces[k]) == Some(r.value[k])
    ensures r.Failure? ==> r.error in pieces && ParseInt(r.error).None?
    ensures r.Failure? <==> exists k :: 0 <= k < |pieces| && ParseInt(pieces[k]).None?
  {
    if pieces == [] then Success([])
    else match ParseInt(pieces[0])
      case None => Failure(pieces[0])
      case Some(v) =>
        match ParseInts(pieces[1..])
        case Success(vs) => Success([v] + vs)
        case Failure(e) => Failure(e)
  }

  /** `NOTIFICATION_TIMES`: the comma-separated reminder offsets, in minutes. */
  function ParseNotificationTimes(raw: string): (r: Result<seq<int>, string>)
    ensures r.Success? ==> && |r.value| == |Split(raw, ",")| >= 1
                           && forall k :: 0 <= k < |r.value| ==> ParseInt(Split(raw, ",")[k]) == Some(r.value[k])
    ensures r.Failure? ==> r.error in Split(raw, ",") && ParseInt(r.error).None?
  {
    ParseInts(Split(raw, ","))
  }

  /** The inverse direction: offsets written out the way the variable is meant to be set. */
  function FormatNotificationTimes(offsets: seq<nat>): string {
    Join(seq(|offsets|, k requires 0 <= k < |offsets| => DecimalString(offsets[k])), ",")
  }

  /** Parsing a formatted, non-empty list of offsets gives the offsets back. */
  lemma ParseFormatNotificationTimes(offsets: seq<nat>)
    requires |offsets| >= 1
    ensures ParseNotificationTimes(FormatNotificationTimes(offsets)) == Success(offsets)
  {
    var pieces := seq(|offsets|, k requires 0 <= k < |offsets| => DecimalString(offsets[k]));
    forall k | 0 <= k < |pieces| ensures ',' !in pieces[k] {
      assert AllDigits(pieces[k]);
    }
    SplitJoin(pieces, ',');
    forall k | 0 <= k < |pieces| ensures ParseInt(pieces[k]) == Some(offsets[k] as int) {
      ParseDecimal(offsets[k]);
    }
    ParseIntsAll(pieces, offsets);
  }

  lemma {:induction false} ParseIntsAll(pieces: seq<string>, values: seq<int>)
    requires |pieces| == |values|
    requires forall k :: 0 <= k < |pieces| ==> ParseInt(pieces[k]) == Some(values[k])
    ensures ParseInts(pieces) == Success(values)
  {
    if pieces != [] {
      var rest, vs := pieces[1..], values[1..];
      forall k | 0 <= k < |rest| ensures ParseInt(rest[k]) == Some(vs[k]) {
        assert rest[k] == pieces[k + 1] && vs[k] == values[k + 1];
      }
      ParseIntsAll(rest, vs);
      assert ParseInt(pieces[0]) == Some(values[0]);
      assert values == [values[0]] + vs;
    }
  }

  /** Without the variable the reminders go 15 and 60 minutes before the start. */
  lemma DefaultNotificationTimesParse()
    ensures ParseNotificationTimes(DefaultNotificationTimes) == Success([15, 60])
  {
    DefaultNotificationTimesFormatted();
    ParseFormatNotificationTimes([15, 60]);
  }

  lemma DefaultNotificationTimesFormatted()
    ensures FormatNotificationTimes([15, 60]) == DefaultNotificationTimes
  {
    assert DecimalString(15) == "15";
    assert DecimalString(60) == "60";
    var offsets: seq<nat> := [15, 60];
    var pieces := seq(|offsets|, k requires 0 <= k < |offsets| => DecimalString(offsets[k]));
    assert pieces == ["15", "60"];
    assert Join(pieces, ",") == pieces[0] + "," + Join(pieces[1..], ",");
    assert pieces[1..] == ["60"];
  }

  // ---------------------------------------------------------------------------
  // The Config class attributes

  /** The attributes of the Config class once the module has been imported. */
  datatype Settings = Settings(
    telegramBotToken: Option<string>,
    speechkitApiKey: Option<string>,
    speechkitFolderId: Option<string>,
    geminiApiKey: Option<string>,
    yandexUser: Option<string>,
    yandexPass: Option<string>,
    caldavUrl: string,
    notificationTimes: seq<int>,
    timezone: string,
    databaseUrl: string)

  /** `CALDAV_URL`: the user's calendar collection, with "" for an unset YANDEX_USER. */
  function CaldavUrl(env: Env): (r: string)
    ensures |r| == |CaldavBase| + |GetEnvOr(env, "YANDEX_USER", "")| + 1
    ensures StartsWith(r, CaldavBase) && EndsWith(r, "/")
    ensures r[|CaldavBase|..|r| - 1] == GetEnvOr(env, "YANDEX_USER", "")
  {
    CaldavBase + GetEnvOr(env, "YANDEX_USER", "") + "/"
  }

  /**
   * Evaluating the class body: Failure(piece) when NOTIFICATION_TIMES holds a
   * piece `int` refuses, which makes the import itself fail.
   */
  function Load(env: Env): (r: Result<Settings, string>)
    ensures "NOTIFICATION_TIMES" !in env ==> r.Success? && r.value.notificationTimes == [15, 60]
    ensures "DATABASE_URL" !in env ==> r.Success? ==> r.value.databaseUrl == DefaultDatabaseUrl
    ensures r.Success? ==> !StartsWith(r.value.databaseUrl, PostgresScheme)
    ensures r.Success? ==> !StartsWith(r.value.databaseUrl, PsycopgScheme)
    ensures var times := ParseNotificationTimes(GetEnvOr(env, "NOTIFICATION_TIMES", DefaultNotificationTimes));
      && (r.Failure? <==> times.Failure?)
      && (r.Failure? ==> r.error == times.error)
      && (r.Success? ==> Success(r.value.notificationTimes) == times)
    ensures r.Success? ==>
      && r.value.databaseUrl == NormalizeDatabaseUrl(GetEnvOr(env, "DATABASE_URL", DefaultDatabaseUrl))
      && r.value.caldavUrl == CaldavUrl(env)
      && r.value.timezone == GetEnvOr(env, "TIMEZONE", DefaultTimezone)
      && r.value.telegramBotToken == GetEnv(env, "TELEGRAM_BOT_TOKEN")
      && r.value.geminiApiKey == GetEnv(env, "GEMINI_API_KEY")
      && r.value.yandexUser == GetEnv(env, "YANDEX_USER")
      && r.value.yandexPass == GetEnv(env, "YANDEX_PASS")
  {
    DefaultNotificationTimesParse();
    DefaultDatabaseUrlKept();
    NormalizedHasNoRewrittenScheme(GetEnvOr(env, "DATABASE_URL", DefaultDatabaseUrl));
    match ParseNotificationTimes(GetEnvOr(env, "NOTIFICATION_TIMES", DefaultNotificationTimes))
    case Failure(piece) => Failure(piece)
    case Success(times) =>
      Success(Settings(
        GetEnv(env, "TELEGRAM_BOT_TOKEN"),
        GetEnv(env, "YANDEX_SPEECHKIT_API_KEY"),
        GetEnv(env, "YANDEX_SPEECHKIT_FOLDER_ID"),
        GetEnv(env, "GEMINI_API_KEY"),
        GetEnv(env, "YANDEX_USER"),
        GetEnv(env, "YANDEX_PASS"),
        CaldavUrl(env),
        times,
        GetEnvOr(env, "TIMEZONE", DefaultTimezone),
        NormalizeDatabaseUrl(GetEnvOr(env, "DATABASE_URL", DefaultDatabaseUrl))))
  }

  // ---------------------------------------------------------------------------
  // validate

  /** The variables `validate` requires, in declared order. */
  const RequiredNames: seq<string> :=
    ["TELEGRAM_BOT_TOKEN", "YANDEX_SPEECHKIT_API_KEY", "YANDEX_SPEECHKIT_FOLDER_ID", "GEMINI_API_KEY"]

  const MissingMessage: string := "Отсутствуют обязательные переменные окружения: "

  /** `getattr(Config, name)` for the required names (None for any other name). */
  function Setting(s: Settings, name: string): Option<string> {
    if name == "TELEGRAM_BOT_TOKEN" then s.telegramBotToken
    else if name == "YANDEX_SPEECHKIT_API_KEY" then s.speechkitApiKey
    else if name == "YANDEX_SPEECHKIT_FOLDER_ID" then s.speechkitFolderId
    else if name == "GEMINI_API_KEY" then s.geminiApiKey
    else None
  }

  /** `sub` is `xs` with some elements left out, the rest in their original order. */
  predicate IsSubsequence(sub: seq<string>, xs: seq<string>) {
    if sub == [] then true
    else if xs == [] then false
    else if sub[0] == xs[0] then IsSubsequence(sub[1..], xs[1..])
    else IsSubsequence(sub, xs[1..])
  }

  /** `[var for var in names if not getattr(cls, var)]`. */
  function MissingFrom(names: seq<string>, s: Settings): (r: seq<string>)
    ensures forall x :: x in r <==> x in names && !Truthy(Setting(s, x))
    ensures IsSubsequence(r, names)
  {
    if names == [] then []
    else if Truthy(Setting(s, names[0])) then MissingFrom(names[1..], s)
    else [names[0]] + MissingFrom(names[1..], s)
  }

  /** `validate`: a ValueError naming every unset required variable, in declared order. */
  function Validate(s: Settings): (r: Result<(), string>)
    ensures r.Success? <==> forall name :: name in RequiredNames ==> Truthy(Setting(s, name))
    ensures r.Failure? ==> r.error == MissingMessage + Join(MissingFrom(RequiredNames, s), ", ")
  {
    var missing := MissingFrom(RequiredNames, s);
    assert missing != [] ==> missing[0] in missing;
    if missing != [] then Failure(MissingMessage + Join(missing, ", ")) else Success(())
  }
}
