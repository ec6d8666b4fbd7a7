/// src/config/config.ts: the settings read from the environment, with their
/// defaults, the configured agencies and the check that the required secrets
/// are present.
module Config {
  import opened Wrappers
  import opened Text

  /// `process.env`: a variable is either unset or holds a string.
  type Env = map<string, string>

  /// One configured agency (the `Agency` interface, lines 4-12).
  datatype Agency = Agency(
    name: string, url: string, selector: string, titleSelector: string,
    priceSelector: string, linkSelector: string, baseUrl: string)

  /// Lines 36-55: the agencies watched, in this order.
  const Agencies: seq<Agency> := [
    Agency("ERA", "https://www.era.be/nl/te-huur/antwerpen", ".property-card",
      ".property-title", ".property-price", "a", "https://www.era.be"),
    Agency("VB Vastgoed", "https://www.vbvastgoed.be/huren", ".card",
      ".card__title", ".card__price", "a", "https://www.vbvastgoed.be")
  ]

  /// `!process.env[key]`: unset or empty.
  predicate Missing(env: Env, key: string) {
    key !in env || env[key] == ""
  }

  /// `process.env[key] || fallback`.
  function EnvOr(env: Env, key: string, fallback: string): (r: string)
    ensures Missing(env, key) ==> r == fallback
    ensures !Missing(env, key) ==> r == env[key]
  {
    if Missing(env, key) then fallback else env[key]
  }

  const Required: seq<string> := ["DEEPSEEK_API_KEY", "EMAIL_USER", "EMAIL_PASS", "EMAIL_TO"]

  const MissingPrefix: string := "Missing required environment variables: "

  /// The required names that are missing, in the order of `Required`.
  function MissingNames(env: Env, names: seq<string>): (r: seq<string>)
    ensures forall k :: k in r <==> k in names && Missing(env, k)
    ensures |r| <= |names|
  {
    if names == [] then []
    else
      var last := names[|names| - 1];
      assert forall k :: k in names <==> k in names[..|names| - 1] || k == last;
      MissingNames(env, names[..|names| - 1]) + (if Missing(env, last) then [last] else [])
  }

  /// `validateConfig()` (lines 58-66): Ok, or the error it throws.
  function ValidateConfig(env: Env): (r: Result<()>)
    ensures r.Err? <==> exists k :: k in Required && Missing(env, k)
    ensures r.Err? ==> r.message == MissingPrefix + Join(MissingNames(env, Required), ", ")
  {
    var missing := MissingNames(env, Required);
    assert |missing| > 0 ==> missing[0] in missing;
    if |missing| > 0 then Err(MissingPrefix + Join(missing, ", ")) else Ok(())
  }

  /// The error message names exactly the missing variables, in the fixed order.
  lemma MissingNamesInOrder(env: Env)
    ensures var ms := MissingNames(env, Required);
      (forall k :: k in ms <==> k in Required && Missing(env, k))
      && forall i, j :: 0 <= i < j < |ms| ==> FirstIndex(Required, ms[i]) < FirstIndex(Required, ms[j])
  {
    MissingNamesOrdered(env, Required);
  }

  /// Every element of `ms` occurs in `names`, and in the same order.
  ghost predicate InOrder(ms: seq<string>, names: seq<string>) {
    (forall k :: k in ms ==> k in names)
    && forall i, j :: 0 <= i < j < |ms| ==> FirstIndex(names, ms[i]) < FirstIndex(names, ms[j])
  }

  lemma {:induction false} MissingNamesOrdered(env: Env, names: seq<string>)
    requires NoDups(names)
    ensures InOrder(MissingNames(env, names), names)
    decreases |names|
  {
    if names != [] {
      var front, last := names[..|names| - 1], names[|names| - 1];
      assert names == front + [last];
      assert NoDups(front) by {
        forall i, j | 0 <= i < j < |front| ensures front[i] != front[j] {
          assert front[i] == names[i] && front[j] == names[j];
        }
      }
      assert last !in front by {
        forall i | 0 <= i < |front| ensures front[i] != last {
          assert front[i] == names[i];
        }
      }
      MissingNamesOrdered(env, front);
      InOrderExtend(MissingNames(env, front), front, last);
    }
  }

  /// Appending a name that is new keeps the order, whether or not that name
  /// is appended to `ms` too.
  lemma InOrderExtend(ms: seq<string>, front: seq<string>, last: string)
    requires last !in front && InOrder(ms, front)
    ensures InOrder(ms, front + [last]) && InOrder(ms + [last], front + [last])
  {
    var names := front + [last];
    forall k | k in front ensures FirstIndex(names, k) == FirstIndex(front, k) < |front| {
      FirstIndexOfPrefix(front, [last], k);
    }
    assert FirstIndex(names, last) == |front| by {
      assert names[|front|] == last && names[..|front|] == front;
    }
    var r := ms + [last];
    forall i, j | 0 <= i < j < |r| ensures FirstIndex(names, r[i]) < FirstIndex(names, r[j]) {
      assert r[i] == ms[i] && ms[i] in front;
      if j < |ms| {
        assert r[j] == ms[j];
      }
    }
  }

  /// An empty value counts as missing: setting every required variable to a
  /// non-empty string is exactly what passes.
  lemma EmptyCountsAsMissing(env: Env, key: string)
    requires key in Required && key in env && env[key] == ""
    ensures ValidateConfig(env).Err?
  {
  }

  // ---------------------------------------------------------------------
  // `parseInt(s)` with no radix, as the settings use it.

  /// The value of `c` as a digit in base `radix`, if it is one.
  function DigitValue(c: char, radix: nat): (d: Option<nat>)
    ensures d.Some? ==> d.value < radix
  {
    var v :=
      if '0' <= c <= '9' then c as int - '0' as int
      else if 'a' <= c <= 'z' then c as int - 'a' as int + 10
      else if 'A' <= c <= 'Z' then c as int - 'A' as int + 10
      else 36;
    if v < radix then Some(v) else None
  }

  /// The length of the run of base-`radix` digits at the start of `s`.
  function DigitRun(s: string, radix: nat): (n: nat)
    ensures n <= |s|
    ensures forall i :: 0 <= i < n ==> DigitValue(s[i], radix).Some?
    ensures n == |s| || DigitValue(s[n], radix).None?
  {
    if s == [] || DigitValue(s[0], radix).None? then 0
    else 1 + DigitRun(s[1..], radix)
  }

  /// The number the digits `ds` denote, most significant first.
  function DigitsValue(ds: string, radix: nat): nat
    requires forall i :: 0 <= i < |ds| ==> DigitValue(ds[i], radix).Some?
  {
    if ds == [] then 0
    else
      Place(DigitsValue(ds[..|ds| - 1], radix), radix, DigitValue(ds[|ds| - 1], radix).value)
  }

  /// A number followed by one more digit.
  function Place(high: nat, radix: nat, digit: nat): nat {
    high * radix + digit
  }

  /// The value of the leading digits of `s`, or None (`NaN`) when there is none.
  function ParseDigits(s: string, radix: nat): (r: Option<nat>)
    ensures r.None? <==> DigitRun(s, radix) == 0
  {
    var n := DigitRun(s, radix);
    if n == 0 then None else Some(DigitsValue(s[..n], radix))
  }

  /// `parseInt(s)`: leading white space, an optional sign, a "0x" or "0X"
  /// prefix selecting base 16, then the longest run of digits; `NaN` (None)
  /// when there is no digit. Precision loss beyond 2^53 is not modelled.
  function ParseInt(s: string): Option<int> {
    var t := TrimStart(s);
    match Magnitude(Unsigned(t))
    case None => None
    case Some(v) =>
      var value: int := if |t| > 0 && t[0] == '-' then -(v as int) else v;
      Some(value)
  }

  /// `t` without its sign, if it has one.
  function Unsigned(t: string): string {
    if |t| > 0 && (t[0] == '-' || t[0] == '+') then t[1..] else t
  }

  /// The value of the digits of `u`, hexadecimal after a "0x" or "0X" prefix.
  function Magnitude(u: string): Option<nat> {
    if StartsWith(u, "0x") || StartsWith(u, "0X") then ParseDigits(u[2..], 16)
    else ParseDigits(u, 10)
  }

  /// The decimal numeral of `n`, without leading zeros.
  function Decimal(n: nat): (s: string)
    ensures s != [] && forall i :: 0 <= i < |s| ==> '0' <= s[i] <= '9'
  {
    var d := ['0' + ((n % 10) as char)];
    if n < 10 then d else Decimal(n / 10) + d
  }

  /// `parseInt` reads a plain run of decimal digits as the number it denotes.
  lemma ParseIntDigits(s: string)
    requires s != [] && forall i :: 0 <= i < |s| ==> '0' <= s[i] <= '9'
    ensures forall i :: 0 <= i < |s| ==> DigitValue(s[i], 10).Some?
    ensures ParseInt(s) == Some(DigitsValue(s, 10))
  {
    DigitsOfDecimal(s);
    ParseIntUnsigned(s);
    MagnitudeDigits(s);
  }

  /// Text that starts with a digit has no white space or sign to skip.
  lemma ParseIntUnsigned(s: string)
    requires s != [] && '0' <= s[0] <= '9'
    ensures ParseInt(s) == Magnitude(s)
  {
    TrimStartOfDigits(s);
    assert Unsigned(s) == s;
  }

  lemma DigitsOfDecimal(s: string)
    requires forall i :: 0 <= i < |s| ==> '0' <= s[i] <= '9'
    ensures forall i :: 0 <= i < |s| ==> DigitValue(s[i], 10).Some?
  {
  }

  lemma TrimStartOfDigits(s: string)
    requires s != [] && '0' <= s[0] <= '9'
    ensures TrimStart(s) == s
  {
    assert !IsWhitespace(s[0]);
  }

  lemma MagnitudeDigits(s: string)
    requires s != [] && forall i :: 0 <= i < |s| ==> '0' <= s[i] <= '9'
    requires forall i :: 0 <= i < |s| ==> DigitValue(s[i], 10).Some?
    ensures Magnitude(s) == Some(DigitsValue(s, 10))
  {
    assert !StartsWith(s, "0x") && !StartsWith(s, "0X") by {
      if |s| >= 2 {
        assert s[..2][1] == s[1];
      }
    }
    DigitRunAll(s, 10);
    assert s[..|s|] == s;
  }

  /// `parseInt` reads back every decimal numeral.
  lemma ParseIntDecimal(n: nat)
    ensures ParseInt(Decimal(n)) == Some(n)
  {
    DecimalValue(n);
    ParseIntDigits(Decimal(n));
  }

  /// `parseInt` stops at the first character that is not a digit: a numeral
  /// followed by other text reads as the numeral.
  lemma ParseIntLeadingDecimal(n: nat, rest: string)
    requires rest != [] && DigitValue(rest[0], 10).None? && rest[0] != 'x' && rest[0] != 'X'
    ensures ParseInt(Decimal(n) + rest) == Some(n)
  {
    var d := Decimal(n);
    var s := d + rest;
    DecimalValue(n);
    assert s[0] == d[0];
    ParseIntUnsigned(s);
    assert |s| >= 2 && s[1] != 'x' && s[1] != 'X' by {
      if |d| >= 2 {
        assert s[1] == d[1];
      } else {
        assert s[1] == rest[0];
      }
    }
    NotHexPrefixed(s);
    DigitRunStops(d, rest, 10);
    assert s[..|d|] == d;
  }

  lemma NotHexPrefixed(s: string)
    requires |s| >= 2 && s[1] != 'x' && s[1] != 'X'
    ensures Magnitude(s) == ParseDigits(s, 10)
  {
    assert s[..2][1] == s[1];
  }

  lemma {:induction false} DigitRunStops(d: string, rest: string, radix: nat)
    requires forall i :: 0 <= i < |d| ==> DigitValue(d[i], radix).Some?
    requires rest != [] && DigitValue(rest[0], radix).None?
    ensures DigitRun(d + rest, radix) == |d|
    decreases |d|
  {
    if d != [] {
      DigitRunStops(d[1..], rest, radix);
      assert (d + rest)[1..] == d[1..] + rest;
    } else {
      assert d + rest == rest;
    }
  }

  lemma {:induction false} DigitRunAll(s: string, radix: nat)
    requires forall i :: 0 <= i < |s| ==> DigitValue(s[i], radix).Some?
    ensures DigitRun(s, radix) == |s|
    decreases |s|
  {
    if s != [] {
      DigitRunAll(s[1..], radix);
    }
  }

  lemma {:induction false} DecimalValue(n: nat)
    ensures forall i :: 0 <= i < |Decimal(n)| ==> DigitValue(Decimal(n)[i], 10).Some?
    ensures DigitsValue(Decimal(n), 10) == n
    decreases n
  {
    var s := Decimal(n);
    if n >= 10 {
      DecimalValue(n / 10);
      assert s[..|s| - 1] == Decimal(n / 10);
    }
  }

  /// The settings of lines 14-56 that have a value of their own.
  datatype Settings = Settings(
    apiKey: Option<string>,
    emailHost: string, emailPort: Option<int>,
    emailUser: Option<string>, emailPass: Option<string>, emailTo: Option<string>,
    intervalMinutes: Option<int>, maxRetries: Option<int>, requestDelayMs: Option<int>,
    serverPort: Option<int>, logLevel: string)

  function Lookup(env: Env, key: string): Option<string> {
    if key in env then Some(env[key]) else None
  }

  /// The `config` object read from `env`; `None` for a number stands for `NaN`.
  function Load(env: Env): Settings {
    Settings(
      Lookup(env, "DEEPSEEK_API_KEY"),
      EnvOr(env, "EMAIL_HOST", "smtp.gmail.com"),
      ParseInt(EnvOr(env, "EMAIL_PORT", "587")),
      Lookup(env, "EMAIL_USER"), Lookup(env, "EMAIL_PASS"), Lookup(env, "EMAIL_TO"),
      ParseInt(EnvOr(env, "SCRAPE_INTERVAL_MINUTES", "30")),
      ParseInt(EnvOr(env, "MAX_RETRIES", "3")),
      ParseInt(EnvOr(env, "REQUEST_DELAY_MS", "2000")),
      ParseInt(EnvOr(env, "PORT", "3000")),
      EnvOr(env, "LOG_LEVEL", "info"))
  }

  /// With none of the optional variables set the defaults apply.
  lemma Defaults(env: Env)
    requires Missing(env, "EMAIL_HOST") && Missing(env, "EMAIL_PORT") && Missing(env, "LOG_LEVEL")
    requires Missing(env, "SCRAPE_INTERVAL_MINUTES") && Missing(env, "MAX_RETRIES")
    requires Missing(env, "REQUEST_DELAY_MS") && Missing(env, "PORT")
    ensures var c := Load(env);
      c.emailHost == "smtp.gmail.com" && c.emailPort == Some(587) && c.intervalMinutes == Some(30)
      && c.maxRetries == Some(3) && c.requestDelayMs == Some(2000) && c.serverPort == Some(3000)
      && c.logLevel == "info"
  {
    DefaultNumerals();
    DefaultParses(env, "EMAIL_PORT", 587, "587");
    DefaultParses(env, "SCRAPE_INTERVAL_MINUTES", 30, "30");
    DefaultParses(env, "MAX_RETRIES", 3, "3");
    DefaultParses(env, "REQUEST_DELAY_MS", 2000, "2000");
    DefaultParses(env, "PORT", 3000, "3000");
  }

  /// The numerals of the numeric defaults.
  lemma DefaultNumerals()
    ensures Decimal(587) == "587" && Decimal(30) == "30" && Decimal(3) == "3"
    ensures Decimal(2000) == "2000" && Decimal(3000) == "3000"
  {
    assert Decimal(58) == "58" && Decimal(200) == "200" && Decimal(300) == "300";
  }

  /// A numeric setting that is not set reads as its default numeral.
  lemma DefaultParses(env: Env, name: string, n: nat, numeral: string)
    requires Missing(env, name) && Decimal(n) == numeral
    ensures ParseInt(EnvOr(env, name, numeral)) == Some(n)
  {
    ParseIntDecimal(n);
  }
}
