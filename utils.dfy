/**
 * The pure helpers of utils.py: the upload extension check, text
 * truncation, the language-to-extension table and the relative-time text.
 * Timestamps are integers counting microseconds, and the current time is a
 * parameter.
 */
module Utils {
  import opened Wrappers
  import opened Verdict

  // ---------------------------------------------------------------------
  // allowed_file
  // ---------------------------------------------------------------------

  /** ASCII lower-casing of one character; every other character is kept. */
  function LowerChar(c: char): char {
    if 'A' <= c <= 'Z' then (c as int + 32) as char else c
  }

  predicate IsUpper(c: char) {
    'A' <= c <= 'Z'
  }

  /** str.lower, on ASCII letters. */
  function Lower(s: string): (r: string)
    ensures |r| == |s|
    ensures forall k | 0 <= k < |r| :: !IsUpper(r[k])
  {
    seq(|s|, k requires 0 <= k < |s| => LowerChar(s[k]))
  }

  /**
   * The text after the last '.', as filename.rsplit('.', 1)[1]: a suffix of
   * `s` holding no '.', right after a '.'.
   */
  function AfterLastDot(s: string): (r: string)
    requires '.' in s
    ensures |r| < |s| && r == s[|s| - |r|..] && s[|s| - |r| - 1] == '.'
    ensures '.' !in r
  {
    var last := s[|s| - 1];
    if last == '.' then []
    else
      assert '.' in s[..|s| - 1] by {
        var k :| 0 <= k < |s| && s[k] == '.';
        assert s[..|s| - 1][k] == '.';
      }
      AfterLastDot(s[..|s| - 1]) + [last]
  }

  /** allowed_file: the name has a '.', and its lower-cased extension is allowed. */
  predicate AllowedFile(filename: string, allowedExtensions: set<string>) {
    '.' in filename && Lower(AfterLastDot(filename)) in allowedExtensions
  }

  /** A name without a '.' is never allowed. */
  lemma NoDotNotAllowed(filename: string, allowedExtensions: set<string>)
    requires '.' !in filename
    ensures !AllowedFile(filename, allowedExtensions)
  {
  }

  /** The extension of `name.ext` is `ext` when `ext` holds no '.'. */
  lemma {:induction false} AfterLastDotOf(name: string, ext: string)
    requires '.' !in ext
    ensures AfterLastDot(name + "." + ext) == ext
  {
    if |ext| > 0 {
      var init := ext[..|ext| - 1];
      assert forall k | 0 <= k < |init| :: init[k] == ext[k];
      AfterLastDotOf(name, init);
      assert (name + "." + ext)[..|name + "." + ext| - 1] == name + "." + init;
      assert ext == init + [ext[|ext| - 1]];
    }
  }

  /**
   * `name.ext` is allowed exactly when the lower-cased `ext` is in the
   * allowed set, whatever `name` holds (dots included).
   */
  lemma AllowedFileWithExtension(name: string, ext: string, allowedExtensions: set<string>)
    requires '.' !in ext
    ensures AllowedFile(name + "." + ext, allowedExtensions) <==> Lower(ext) in allowedExtensions
  {
    assert (name + "." + ext)[|name|] == '.';
    AfterLastDotOf(name, ext);
  }

  /** The check ignores case: the extension's case does not matter. */
  lemma AllowedFileIgnoresCase(name: string, ext: string, ext': string, allowedExtensions: set<string>)
    requires '.' !in ext && '.' !in ext' && Lower(ext) == Lower(ext')
    ensures AllowedFile(name + "." + ext, allowedExtensions) <==> AllowedFile(name + "." + ext', allowedExtensions)
  {
    AllowedFileWithExtension(name, ext, allowedExtensions);
    AllowedFileWithExtension(name, ext', allowedExtensions);
  }

  /** An allowed-set entry holding an upper-case letter never matches any file name. */
  lemma UpperCaseEntryNeverMatches(filename: string, allowedExtensions: set<string>, entry: string)
    requires exists k | 0 <= k < |entry| :: IsUpper(entry[k])
    ensures AllowedFile(filename, allowedExtensions) <==> AllowedFile(filename, allowedExtensions - {entry})
  {
    if '.' in filename {
      var ext := Lower(AfterLastDot(filename));
      var k :| 0 <= k < |entry| && IsUpper(entry[k]);
      assert ext != entry by {
        if |ext| == |entry| {
          assert !IsUpper(ext[k]);
        }
      }
    }
  }

  // ---------------------------------------------------------------------
  // truncate_text
  // ---------------------------------------------------------------------

  /** The default length of truncate_text and of the template filter. */
  const DefaultLength := 100

  /** The marker appended to truncated text. */
  const Ellipsis := "..."

  /**
   * Python's text[:n]: the first n characters, and for a negative n all but
   * the last -n (nothing when -n exceeds the length).
   */
  function PrefixSlice(text: string, n: int): (r: string)
    ensures |r| <= |text| && r == text[..|r|]
    ensures n >= 0 ==> |r| == if n <= |text| then n else |text|
    ensures n < 0 ==> |r| == if |text| + n >= 0 then |text| + n else 0
  {
    if n >= 0 then (if n <= |text| then text[..n] else text)
    else if |text| + n >= 0 then text[..|text| + n]
    else []
  }

  /** truncate_text: text within the length is kept, longer text is cut and marked. */
  function TruncateText(text: string, maxLength: int): (r: string)
    ensures r == text || (3 <= |r| <= |text| + 3 && r[..|r| - 3] == text[..|r| - 3] && r[|r| - 3..] == Ellipsis)
  {
    if |text| <= maxLength then text
    else
      var p := PrefixSlice(text, maxLength);
      assert (p + Ellipsis)[..|p|] == p && (p + Ellipsis)[|p|..] == Ellipsis;
      p + Ellipsis
  }

  /** truncate_text called without a length. */
  function TruncateTextDefault(text: string): string {
    TruncateText(text, DefaultLength)
  }

  /** Text no longer than the limit is returned unchanged. */
  lemma TruncateKeepsShort(text: string, maxLength: int)
    requires |text| <= maxLength
    ensures TruncateText(text, maxLength) == text
  {
  }

  /**
   * Longer text with a non-negative limit becomes its first `maxLength`
   * characters and the marker: `maxLength + 3` characters in all.
   */
  lemma TruncateCuts(text: string, maxLength: nat)
    requires |text| > maxLength
    ensures var r := TruncateText(text, maxLength);
            |r| == maxLength + 3 && r[..maxLength] == text[..maxLength] && r[maxLength..] == Ellipsis
  {
  }

  /** Truncating twice with the same non-negative limit changes nothing more. */
  lemma TruncateIdempotent(text: string, maxLength: nat)
    ensures TruncateText(TruncateText(text, maxLength), maxLength) == TruncateText(text, maxLength)
  {
    if |text| > maxLength {
      var r := TruncateText(text, maxLength);
      assert r[..maxLength] == text[..maxLength];
    }
  }

  /** A negative limit keeps all but the last -maxLength characters, before the marker. */
  lemma TruncateNegativeLimit(text: string, maxLength: int)
    requires maxLength < 0
    ensures var r := TruncateText(text, maxLength);
            && r[..|r| - 3] == text[..|r| - 3]
            && |r| == 3 + (if |text| + maxLength >= 0 then |text| + maxLength else 0)
            && r[|r| - 3..] == Ellipsis
  {
  }

  // ---------------------------------------------------------------------
  // get_language_extension
  // ---------------------------------------------------------------------

  /** The source-file extension of each supported language. */
  const Extensions: map<string, string> := map["python3" := ".py", "cpp" := ".cpp", "c" := ".c", "java" := ".java"]

  /** The extension used for a language, ".txt" for any other. */
  function GetLanguageExtension(language: string): (r: string)
    ensures |r| >= 2 && r[0] == '.'
    ensures r != ".txt" <==> language in Extensions
  {
    if language in Extensions then Extensions[language] else ".txt"
  }

  /**
   * The extension is ".py", ".cpp", ".c" or ".java" for the four supported
   * languages, and ".txt" for every other one.
   */
  lemma LanguageExtensions(language: string)
    ensures language == "python3" ==> GetLanguageExtension(language) == ".py"
    ensures language == "cpp" ==> GetLanguageExtension(language) == ".cpp"
    ensures language == "c" ==> GetLanguageExtension(language) == ".c"
    ensures language == "java" ==> GetLanguageExtension(language) == ".java"
    ensures language !in {"python3", "cpp", "c", "java"} ==> GetLanguageExtension(language) == ".txt"
  {
  }

  /**
   * A language has its own extension exactly when the judge knows how to
   * run it: it is python3 or one of the compiled languages.
   */
  lemma ExtensionKnownExactlyForRunnable(language: string)
    ensures GetLanguageExtension(language) != ".txt" <==> language == "python3" || NeedsBuild(language)
  {
    assert Extensions.Keys == {"python3"} + CompiledLanguages;
    assert ".txt" !in Extensions.Values;
  }

  // ---------------------------------------------------------------------
  // Decimal text of a count
  // ---------------------------------------------------------------------

  function DigitChar(d: nat): char
    requires d < 10
  {
    ('0' as int + d) as char
  }

  predicate IsDigit(c: char) {
    '0' <= c <= '9'
  }

  /** The decimal text of `n`, as Python's str of an int. */
  function NatToString(n: nat): (r: string)
    ensures |r| > 0 && forall k | 0 <= k < |r| :: IsDigit(r[k])
  {
    if n < 10 then [DigitChar(n)] else NatToString(n / 10) + [DigitChar(n % 10)]
  }

  function DigitValue(c: char): nat
    requires IsDigit(c)
  {
    c as int - '0' as int
  }

  /** The value of a string of decimal digits. */
  function ParseDigits(s: string): nat
    requires forall k | 0 <= k < |s| :: IsDigit(s[k])
  {
    if |s| == 0 then 0 else 10 * ParseDigits(s[..|s| - 1]) + DigitValue(s[|s| - 1])
  }

  /** The decimal text reads back as the number it was made from. */
  lemma {:induction false} NatToStringRoundTrip(n: nat)
    ensures ParseDigits(NatToString(n)) == n
  {
    if n >= 10 {
      NatToStringRoundTrip(n / 10);
      var s := NatToString(n);
      assert s[..|s| - 1] == NatToString(n / 10);
    }
  }

  /** Different numbers have different decimal texts. */
  lemma NatToStringInjective(m: nat, n: nat)
    requires NatToString(m) == NatToString(n)
    ensures m == n
  {
    NatToStringRoundTrip(m);
    NatToStringRoundTrip(n);
  }

  // ---------------------------------------------------------------------
  // format_datetime and format_time_delta
  // ---------------------------------------------------------------------

  const Never := "Never"

  const MicrosPerSecond := 1000000
  const SecondsPerDay := 86400

  /** format_datetime for an absent time; a present one is left to strftime. */
  function FormatMissingDatetime(dt: Option<int>): (r: Option<string>)
    ensures dt.None? <==> r == Some(Never)
  {
    if dt.None? then Some(Never) else None
  }

  /** The difference between now and a timestamp, as normalised days and seconds. */
  datatype Delta = Delta(days: nat, seconds: nat, isFuture: bool)

  /**
   * dt - now for a future dt, now - dt otherwise; sub-second parts are
   * dropped, as timedelta.seconds does.
   */
  function DeltaBetween(dt: int, now: int): (d: Delta)
    ensures d.seconds < SecondsPerDay
    ensures d.isFuture <==> dt > now
  {
    var total := if dt > now then dt - now else now - dt;
    Delta(total / (SecondsPerDay * MicrosPerSecond), (total % (SecondsPerDay * MicrosPerSecond)) / MicrosPerSecond, dt > now)
  }

  /** The number and unit a delta is reported in: its largest non-zero unit, else seconds. */
  datatype Reading = Reading(count: nat, unit: string)

  function ReadingOf(d: Delta): Reading
    requires d.seconds < SecondsPerDay
  {
    var hours := d.seconds / 3600;
    var remainder := d.seconds % 3600;
    var minutes := remainder / 60;
    var seconds := remainder % 60;
    if d.days > 0 then Reading(d.days, "day")
    else if hours > 0 then Reading(hours, "hour")
    else if minutes > 0 then Reading(minutes, "minute")
    else Reading(seconds, "second")
  }

  /** "count unit" with a plural s when the count is not 1, then " ago" (also when in the future). */
  function FormatDelta(d: Delta): string
    requires d.seconds < SecondsPerDay
  {
    var reading := ReadingOf(d);
    (if d.isFuture then "in " else "") + NatToString(reading.count) + " " + reading.unit
    + (if reading.count != 1 then "s" else "") + " ago"
  }

  /** format_time_delta: "Never" for no time, else the relative description. */
  function FormatTimeDelta(dt: Option<int>, now: int): (r: string)
    ensures r == Never <==> dt.None?
  {
    if dt.None? then Never
    else
      var d := DeltaBetween(dt.value, now);
      FormatDeltaAffixes(d);
      assert Never[|Never| - 4..] != " ago";
      FormatDelta(d)
  }

  /**
   * The reading is the largest non-zero unit: its count is within that
   * unit's range and every larger unit is zero; the seconds reading is
   * the only one that can be 0.
   */
  lemma ReadingIsLargestUnit(d: Delta)
    requires d.seconds < SecondsPerDay
    ensures var r := ReadingOf(d);
            && (r.unit == "day" <==> d.days > 0)
            && (r.unit == "day" ==> r.count == d.days)
            && (r.unit == "hour" <==> d.days == 0 && d.seconds >= 3600)
            && (r.unit == "hour" ==> r.count == d.seconds / 3600 && 0 < r.count < 24)
            && (r.unit == "minute" <==> d.days == 0 && 60 <= d.seconds < 3600)
            && (r.unit == "minute" ==> r.count == d.seconds / 60 && 0 < r.count < 60)
            && (r.unit == "second" <==> d.days == 0 && d.seconds < 60)
            && (r.unit == "second" ==> r.count == d.seconds)
  {
  }

  /** The text ends in " ago", and begins with "in " exactly for a future time. */
  lemma FormatDeltaAffixes(d: Delta)
    requires d.seconds < SecondsPerDay
    ensures var s := FormatDelta(d);
            && |s| >= 4 && s[|s| - 4..] == " ago"
            && (d.isFuture <==> |s| >= 3 && s[..3] == "in ")
  {
    var s := FormatDelta(d);
    var digits := NatToString(ReadingOf(d).count);
    if d.isFuture {
      assert s[..3] == "in ";
    } else {
      assert s[0] == digits[0];
      assert IsDigit(s[0]);
    }
  }

  /**
   * The text is the prefix, the count's digits, the unit and a plural "s"
   * exactly when the count is not 1; the count can be read back from it.
   */
  lemma FormatDeltaPlural(d: Delta)
    requires d.seconds < SecondsPerDay
    ensures var r := ReadingOf(d);
            var digits := NatToString(r.count);
            var prefix := if d.isFuture then "in " else "";
            && FormatDelta(d) == prefix + digits + " " + r.unit + (if r.count != 1 then "s" else "") + " ago"
            && ParseDigits(digits) == r.count
  {
    NatToStringRoundTrip(ReadingOf(d).count);
  }

  /**
   * The delta measures the distance between the two times in whole
   * seconds, rounded down: days and seconds recombine to it.
   */
  lemma DeltaBetweenExact(dt: int, now: int)
    ensures var d := DeltaBetween(dt, now);
            var total := if dt > now then dt - now else now - dt;
            var whole := d.days * SecondsPerDay + d.seconds;
            whole * MicrosPerSecond <= total < (whole + 1) * MicrosPerSecond
  {
    var total := if dt > now then dt - now else now - dt;
    var day := SecondsPerDay * MicrosPerSecond;
    var q, rest := total / day, total % day;
    assert total == q * day + rest && 0 <= rest < day;
    var s, u := rest / MicrosPerSecond, rest % MicrosPerSecond;
    assert rest == s * MicrosPerSecond + u && 0 <= u < MicrosPerSecond;
    assert q * day == q * SecondsPerDay * MicrosPerSecond;
    assert (q * SecondsPerDay + s) * MicrosPerSecond == q * day + s * MicrosPerSecond;
  }

  /** format_time_delta and format_datetime both describe a missing time as "Never". */
  lemma MissingTimeIsNever(now: int)
    ensures FormatTimeDelta(None, now) == Never
    ensures FormatMissingDatetime(None) == Some(Never)
  {
  }
}
