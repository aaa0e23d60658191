/**
 * Configuration loading from the process environment, given here as a map
 * from variable names to values. Reading a `.env` file first is not part of
 * this model.
 */
module Config {
  import opened Wrappers
  import opened Decimal

  datatype Config = Config(
    serverPort: string,
    dbPath: string,
    botToken: string,
    baseUrl: string,
    posterToken: string,
    encryptionKey: string,
    admins: seq<int>)

  datatype ConfigError = BotTokenMissing | BaseUrlMissing | PosterTokenMissing | EncryptionKeyMissing

  /** `os.LookupEnv` with a fallback: a variable that is set wins, even when it is set to "". */
  function GetEnv(env: map<string, string>, key: string, default: string): (v: string)
    ensures key in env ==> v == env[key]
    ensures key !in env ==> v == default
  {
    if key in env then env[key] else default
  }

  /** `strings.Split(s, string(sep))`: the pieces between separators, in order. */
  function Split(s: string, sep: char): (parts: seq<string>)
    ensures |parts| >= 1
    decreases |s|
  {
    if |s| == 0 then [""]
    else
      var rest := Split(s[1..], sep);
      if s[0] == sep then [""] + rest else [[s[0]] + rest[0]] + rest[1..]
  }

  /** The pieces joined back with the separator. */
  function Join(parts: seq<string>, sep: char): string
    decreases |parts|
  {
    if |parts| == 0 then ""
    else if |parts| == 1 then parts[0]
    else parts[0] + [sep] + Join(parts[1..], sep)
  }

  function Occurrences(s: string, c: char): nat
    decreases |s|
  {
    if |s| == 0 then 0 else (if s[0] == c then 1 else 0) + Occurrences(s[1..], c)
  }

  /** One piece per separator, plus one. */
  lemma {:induction false} SplitCount(s: string, sep: char)
    ensures |Split(s, sep)| == Occurrences(s, sep) + 1
    decreases |s|
  {
    if |s| > 0 {
      SplitCount(s[1..], sep);
    }
  }

  /** No piece holds a separator, and joining the pieces gives the text back. */
  lemma {:induction false} SplitJoin(s: string, sep: char)
    ensures Join(Split(s, sep), sep) == s
    ensures forall i :: 0 <= i < |Split(s, sep)| ==> sep !in Split(s, sep)[i]
    decreases |s|
  {
    if |s| > 0 {
      var rest := Split(s[1..], sep);
      SplitJoin(s[1..], sep);
      if s[0] == sep {
        assert Split(s, sep) == [""] + rest;
        assert Join([""] + rest, sep) == "" + [sep] + Join(rest, sep);
        assert s == [s[0]] + s[1..];
      } else {
        var parts := Split(s, sep);
        assert parts == [[s[0]] + rest[0]] + rest[1..];
        if |rest| == 1 {
          assert Join(rest, sep) == rest[0];
        } else {
          assert Join(rest, sep) == rest[0] + [sep] + Join(rest[1..], sep);
          assert parts[1..] == rest[1..];
        }
        assert s == [s[0]] + s[1..];
        forall i | 0 <= i < |parts|
          ensures sep !in parts[i]
        {
          if i > 0 {
            assert parts[i] == rest[i];
          }
        }
      }
    }
  }

  /** White space as `fmt` scanning knows it, line feed aside. */
  predicate IsScanSpace(c: char) {
    var n := c as int;
    || (0x09 <= n <= 0x0D && n != 0x0A)
    || n == 0x20 || n == 0x85 || n == 0xA0 || n == 0x1680
    || (0x2000 <= n <= 0x200A)
    || n == 0x2028 || n == 0x2029 || n == 0x202F || n == 0x205F || n == 0x3000
  }

  /** The text after leading white space; None when a line feed comes first (Sscanf's "unexpected newline"). */
  function SkipSpace(s: string): (r: Option<string>)
    ensures r.Some? ==> |r.value| <= |s| && r.value == s[|s| - |r.value|..]
    decreases |s|
  {
    if |s| == 0 then Some(s)
    else if s[0] == '\n' then None
    else if IsScanSpace(s[0]) then SkipSpace(s[1..])
    else Some(s)
  }

  /**
   * What SkipSpace drops is white space, and what it keeps starts with
   * neither white space nor a line feed; it fails only on a line feed that
   * follows nothing but white space.
   */
  lemma {:induction false} SkipSpaceSpec(s: string)
    ensures SkipSpace(s).Some? ==> forall i :: 0 <= i < |s| - |SkipSpace(s).value| ==> IsScanSpace(s[i])
    ensures SkipSpace(s).Some? && |SkipSpace(s).value| > 0 ==> !IsScanSpace(SkipSpace(s).value[0]) && SkipSpace(s).value[0] != '\n'
    ensures SkipSpace(s).None? ==> exists k :: 0 <= k < |s| && s[k] == '\n' && (forall j :: 0 <= j < k ==> IsScanSpace(s[j]))
    decreases |s|
  {
    if |s| > 0 && s[0] != '\n' && IsScanSpace(s[0]) {
      SkipSpaceSpec(s[1..]);
      if SkipSpace(s).None? {
        var k :| 0 <= k < |s[1..]| && s[1..][k] == '\n' && (forall j :: 0 <= j < k ==> IsScanSpace(s[1..][j]));
        assert s[k + 1] == '\n';
        forall j | 0 <= j < k + 1
          ensures IsScanSpace(s[j])
        {
          if j > 0 {
            assert s[j] == s[1..][j - 1];
          }
        }
      } else {
        forall i | 0 <= i < |s| - |SkipSpace(s).value|
          ensures IsScanSpace(s[i])
        {
          if i > 0 {
            assert s[i] == s[1..][i - 1];
          }
        }
      }
    }
  }

  /** Skipping over white space that ends before a character that is not white space. */
  lemma {:induction false} SkipSpaceOver(ws: string, t: string)
    requires forall i :: 0 <= i < |ws| ==> IsScanSpace(ws[i])
    requires |t| > 0 ==> !IsScanSpace(t[0])
    ensures |t| > 0 && t[0] == '\n' ==> SkipSpace(ws + t) == None
    ensures !(|t| > 0 && t[0] == '\n') ==> SkipSpace(ws + t) == Some(t)
    decreases |ws|
  {
    if |ws| > 0 {
      assert (ws + t)[0] == ws[0];
      assert (ws + t)[1..] == ws[1..] + t;
      SkipSpaceOver(ws[1..], t);
    } else {
      assert ws + t == t;
    }
  }

  /** The longest run of digits at the front of s. */
  function LeadingDigits(s: string): (d: string)
    ensures AllDigits(d) && d <= s
    ensures |d| < |s| ==> !IsDigit(s[|d|])
    decreases |s|
  {
    if |s| > 0 && IsDigit(s[0]) then [s[0]] + LeadingDigits(s[1..]) else ""
  }

  /** The %d verb after white space: one optional sign, then the longest run of digits, 0 when it does not parse. */
  function ScanToken(t: string): (i: int)
    ensures IsInt64(i)
  {
    var signed := |t| > 0 && (t[0] == '+' || t[0] == '-');
    var digits := LeadingDigits(if signed then t[1..] else t);
    if |digits| == 0 then 0
    else
      match ParseInt64(if signed then [t[0]] + digits else digits)
      case None => 0
      case Some(v) => v
  }

  /**
   * `fmt.Sscanf(s, "%d", &i)`, with i starting at 0: skip white space,
   * accept one sign, then the longest run of digits; anything after the
   * digits is ignored. The scan fails, and i stays 0, when no digit follows,
   * a line feed comes first, or the value does not fit in 64 bits.
   */
  function ScanInt(s: string): (i: int)
    ensures IsInt64(i)
  {
    match SkipSpace(s)
    case None => 0
    case Some(t) => ScanToken(t)
  }

  /** A piece with no digit at all scans as 0. */
  lemma ScanWithoutDigits(s: string)
    requires forall i :: 0 <= i < |s| ==> !IsDigit(s[i])
    ensures ScanInt(s) == 0
  {
    match SkipSpace(s)
    case None =>
    case Some(t) =>
      var signed := |t| > 0 && (t[0] == '+' || t[0] == '-');
      var rest := if signed then t[1..] else t;
      if |rest| > 0 {
        assert rest[0] in s;
      }
  }

  /** The digit run of a text is its digits up to the first non-digit. */
  lemma {:induction false} LeadingDigitsOver(d: string, rest: string)
    requires AllDigits(d)
    requires |rest| > 0 ==> !IsDigit(rest[0])
    ensures LeadingDigits(d + rest) == d
    decreases |d|
  {
    if |d| > 0 {
      assert (d + rest)[0] == d[0];
      assert (d + rest)[1..] == d[1..] + rest;
      LeadingDigitsOver(d[1..], rest);
    } else {
      assert d + rest == rest;
    }
  }

  /** After white space, the scan reads whatever comes next. */
  lemma ScanAfterSpace(ws: string, t: string)
    requires forall i :: 0 <= i < |ws| ==> IsScanSpace(ws[i])
    requires |t| > 0 ==> !IsScanSpace(t[0]) && t[0] != '\n'
    ensures ScanInt(ws + t) == ScanToken(t)
  {
    SkipSpaceOver(ws, t);
  }

  /** A digit run followed by a non-digit reads as the run's value, or 0 when that does not parse. */
  lemma ScanTokenDigits(d: string, rest: string)
    requires |d| > 0 && AllDigits(d)
    requires |rest| > 0 ==> !IsDigit(rest[0])
    ensures ParseInt64(d).Some? ==> ScanToken(d + rest) == ParseInt64(d).value
    ensures ParseInt64(d).None? ==> ScanToken(d + rest) == 0
  {
    assert (d + rest)[0] == d[0];
    LeadingDigitsOver(d, rest);
  }

  /** The same after a sign. */
  lemma ScanTokenSigned(sign: char, d: string, rest: string)
    requires sign == '-' || sign == '+'
    requires |d| > 0 && AllDigits(d)
    requires |rest| > 0 ==> !IsDigit(rest[0])
    ensures ParseInt64([sign] + d).Some? ==> ScanToken([sign] + d + rest) == ParseInt64([sign] + d).value
    ensures ParseInt64([sign] + d).None? ==> ScanToken([sign] + d + rest) == 0
  {
    var t := [sign] + d + rest;
    assert t[0] == sign;
    assert t[1..] == d + rest;
    LeadingDigitsOver(d, rest);
  }

  /** The %d verb reads a formatted integer back, whatever non-digit follows it. */
  lemma ScanTokenFormatted(n: int, rest: string)
    requires IsInt64(n)
    requires |rest| > 0 ==> !IsDigit(rest[0])
    ensures ScanToken(FormatInt(n) + rest) == n
  {
    var f := FormatInt(n);
    ParseFormatInt(n);
    if n < 0 {
      assert f == ['-'] + f[1..];
      ScanTokenSigned('-', f[1..], rest);
    } else {
      ScanTokenDigits(f, rest);
    }
  }

  /**
   * An integer written in decimal, after any white space and before any
   * text that does not start with a digit, scans as that integer: " 2"
   * gives 2 and "12abc" gives 12.
   */
  lemma ScanDecimal(ws: string, n: int, rest: string)
    requires forall i :: 0 <= i < |ws| ==> IsScanSpace(ws[i])
    requires IsInt64(n)
    requires |rest| > 0 ==> !IsDigit(rest[0])
    ensures ScanInt(ws + FormatInt(n) + rest) == n
  {
    var f := FormatInt(n);
    assert ws + f + rest == ws + (f + rest);
    assert (f + rest)[0] == f[0];
    assert f[0] == '-' || IsDigit(f[0]);
    ScanAfterSpace(ws, f + rest);
    ScanTokenFormatted(n, rest);
  }

  /** An administrator id written in decimal scans back to itself. */
  lemma ScanFormatted(n: int)
    requires IsInt64(n)
    ensures ScanInt(FormatInt(n)) == n
  {
    var f := FormatInt(n);
    assert "" + f == f;
    assert f + "" == f;
    assert f[0] == '-' || IsDigit(f[0]);
    ScanAfterSpace("", f);
    ScanTokenFormatted(n, "");
  }

  /** A line feed before anything but white space fails the scan ("unexpected newline"): 0. */
  lemma ScanUnexpectedNewline(ws: string, rest: string)
    requires forall i :: 0 <= i < |ws| ==> IsScanSpace(ws[i])
    ensures ScanInt(ws + "\n" + rest) == 0
  {
    assert ws + "\n" + rest == ws + ("\n" + rest);
    SkipSpaceOver(ws, "\n" + rest);
  }

  /** A sign with no digit right after it fails the scan: "-" and "+x" give 0. */
  lemma ScanSignWithoutDigits(ws: string, sign: char, rest: string)
    requires forall i :: 0 <= i < |ws| ==> IsScanSpace(ws[i])
    requires sign == '-' || sign == '+'
    requires |rest| > 0 ==> !IsDigit(rest[0])
    ensures ScanInt(ws + [sign] + rest) == 0
  {
    var t := [sign] + rest;
    assert ws + [sign] + rest == ws + t;
    ScanAfterSpace(ws, t);
    assert t[1..] == rest;
  }

  /** A first character that is neither white space, a sign nor a digit fails the scan: "a5" gives 0. */
  lemma ScanOtherFirst(ws: string, rest: string)
    requires forall i :: 0 <= i < |ws| ==> IsScanSpace(ws[i])
    requires |rest| > 0 && !IsScanSpace(rest[0]) && !IsDigit(rest[0]) && rest[0] != '-' && rest[0] != '+'
    ensures ScanInt(ws + rest) == 0
  {
    if rest[0] == '\n' {
      SkipSpaceOver(ws, rest);
    } else {
      ScanAfterSpace(ws, rest);
    }
  }

  /** A digit run beyond 64 bits, followed by a non-digit, reads as 0. */
  lemma ScanTokenOverflow(digits: string, rest: string)
    requires |digits| > 0 && AllDigits(digits) && DigitsValue(digits) > MaxInt64
    requires |rest| > 0 ==> !IsDigit(rest[0])
    ensures ScanToken(digits + rest) == 0
  {
    ParseRejects(digits);
    ScanTokenDigits(digits, rest);
  }

  /** A digit run whose value does not fit in 64 bits fails the scan: 0. */
  lemma ScanOverflow(ws: string, digits: string, rest: string)
    requires forall i :: 0 <= i < |ws| ==> IsScanSpace(ws[i])
    requires |digits| > 0 && AllDigits(digits) && DigitsValue(digits) > MaxInt64
    requires |rest| > 0 ==> !IsDigit(rest[0])
    ensures ScanInt(ws + digits + rest) == 0
  {
    var t := digits + rest;
    calc {
      ScanInt(ws + digits + rest);
      { assert ws + digits + rest == ws + t; }
      ScanInt(ws + t);
      { assert t[0] == digits[0] && IsDigit(digits[0]);
        ScanAfterSpace(ws, t); }
      ScanToken(t);
      { ScanTokenOverflow(digits, rest); }
      0;
    }
  }

  /** The administrator list: empty for "", else one scanned integer per comma-separated piece. */
  function AdminIds(s: string): (ids: seq<int>)
  {
    if s == "" then [] else Map(Split(s, ','), ScanInt)
  }

  /** `parseInt`: the scanned value, 0 when the scan fails (the failure is only logged). */
  method ParseInt(p: string) returns (i: int)
    ensures i == ScanInt(p)
  {
    i := ScanInt(p);
  }

  /** `parseAdmins` */
  method ParseAdmins(s: string) returns (admins: seq<int>)
    ensures admins == AdminIds(s)
    ensures s == "" ==> admins == []
    ensures s != "" ==> |admins| == Occurrences(s, ',') + 1 == |Split(s, ',')|
    ensures s != "" ==> forall i :: 0 <= i < |admins| ==> admins[i] == ScanInt(Split(s, ',')[i])
  {
    admins := [];
    if s == "" {
      return;
    }
    var parts := Split(s, ',');
    var i := 0;
    while i < |parts|
      invariant 0 <= i <= |parts|
      invariant admins == Map(parts[..i], ScanInt)
    {
      var id := ParseInt(parts[i]);
      assert parts[..i + 1][..i] == parts[..i];
      admins := admins + [id];
      i := i + 1;
    }
    assert parts[..i] == parts;
    SplitCount(s, ',');
  }

  /**
   * `LoadConfig`: read every variable, then refuse the first of BOT_TOKEN,
   * BASE_URL, POSTER_TOKEN and ENCRYPTION_KEY that is empty, in that order.
   */
  method LoadConfig(env: map<string, string>) returns (r: Result<Config, ConfigError>)
    ensures var bot, base, poster, key :=
        GetEnv(env, "BOT_TOKEN", ""), GetEnv(env, "BASE_URL", ""),
        GetEnv(env, "POSTER_TOKEN", ""), GetEnv(env, "ENCRYPTION_KEY", "");
      && (bot == "" ==> r == Err(BotTokenMissing))
      && (bot != "" && base == "" ==> r == Err(BaseUrlMissing))
      && (bot != "" && base != "" && poster == "" ==> r == Err(PosterTokenMissing))
      && (bot != "" && base != "" && poster != "" && key == "" ==> r == Err(EncryptionKeyMissing))
      && (r.Ok? <==> bot != "" && base != "" && poster != "" && key != "")
    ensures r.Ok? ==>
      && r.value.botToken != "" && r.value.baseUrl != "" && r.value.posterToken != "" && r.value.encryptionKey != ""
      && r.value.serverPort == GetEnv(env, "PORT", "8080")
      && r.value.dbPath == GetEnv(env, "DB_PATH", "registration.db?mode=rwc")
      && r.value.botToken == GetEnv(env, "BOT_TOKEN", "")
      && r.value.baseUrl == GetEnv(env, "BASE_URL", "")
      && r.value.posterToken == GetEnv(env, "POSTER_TOKEN", "")
      && r.value.encryptionKey == GetEnv(env, "ENCRYPTION_KEY", "")
      && r.value.admins == AdminIds(GetEnv(env, "ADMINS", ""))
  {
    var admins := ParseAdmins(GetEnv(env, "ADMINS", ""));
    var config := Config(
      GetEnv(env, "PORT", "8080"),
      GetEnv(env, "DB_PATH", "registration.db?mode=rwc"),
      GetEnv(env, "BOT_TOKEN", ""),
      GetEnv(env, "BASE_URL", ""),
      GetEnv(env, "POSTER_TOKEN", ""),
      GetEnv(env, "ENCRYPTION_KEY", ""),
      admins);
    if config.botToken == "" {
      return Err(BotTokenMissing);
    }
    if config.baseUrl == "" {
      return Err(BaseUrlMissing);
    }
    if config.posterToken == "" {
      return Err(PosterTokenMissing);
    }
    if |config.encryptionKey| == 0 {
      return Err(EncryptionKeyMissing);
    }
    return Ok(config);
  }
}
