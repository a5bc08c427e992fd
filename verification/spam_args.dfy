/** Command-line handling of the line-seeding script
    (scripts/generate-opreturn-spam.js): flag lookup, positive-integer parsing,
    the run's settings and the batch sizing rules. */
module SpamArgs {
  import opened Wrappers
  import opened Decimal

  const DefaultCount := 10000
  const DefaultBatch := 25
  const DefaultTimeoutMs := 120000
  const DefaultMinBytes := 60
  const DefaultModel := "grok-4-1-fast-non-reasoning"
  const DefaultOut := "app/assets/javascripts/spam.js"
  /** The floor on a batch's token budget when none is given. */
  const MinOutputTokens := 800
  const TokensPerLine := 25

  /** `xs.indexOf(x)`: the first position of `x`, or -1. */
  function IndexOf(xs: seq<string>, x: string): (i: int)
    ensures -1 <= i < |xs|
    ensures i == -1 <==> x !in xs
    ensures 0 <= i ==> xs[i] == x && x !in xs[..i]
    decreases |xs|
  {
    if |xs| == 0 then -1
    else if xs[0] == x then 0
    else
      var j := IndexOf(xs[1..], x);
      assert j >= 0 ==> xs[..j + 1] == [xs[0]] + xs[1..][..j];
      if j == -1 then -1 else j + 1
  }

  predicate StartsWith(s: string, prefix: string) {
    |prefix| <= |s| && s[..|prefix|] == prefix
  }

  /** A flag's value must be non-empty and must not itself look like a flag. */
  predicate UsableValue(v: string) {
    v != "" && !StartsWith(v, "--")
  }

  /** `getArg(flag, fallback)`: the element after the first occurrence of `flag`,
      or `fallback` when the flag is absent, is last, or is followed by an empty
      value or another flag. */
  function GetArg(argv: seq<string>, flag: string, fallback: Option<string>): (r: Option<string>)
    ensures flag !in argv ==> r == fallback
    ensures r != fallback ==>
              r.Some? && UsableValue(r.value) &&
              exists i :: 0 <= i < |argv| - 1 && argv[i] == flag && flag !in argv[..i] && argv[i + 1] == r.value
    ensures fallback.Some? ==> r.Some?
  {
    var i := IndexOf(argv, flag);
    if i == -1 then fallback
    else if i + 1 < |argv| && UsableValue(argv[i + 1]) then Some(argv[i + 1])
    else fallback
  }

  /** A flag followed by a usable value yields that value, provided the flag does
      not occur earlier. */
  lemma {:induction false} GetArgFindsValue(before: seq<string>, flag: string, v: string, after: seq<string>,
                                            fallback: Option<string>)
    requires flag !in before && UsableValue(v)
    ensures GetArg(before + [flag, v] + after, flag, fallback) == Some(v)
  {
    var argv := before + [flag, v] + after;
    assert argv[|before|] == flag && argv[..|before|] == before;
    var i := IndexOf(argv, flag);
    assert i == |before|;
    assert argv[i + 1] == v;
  }

  /** A flag with nothing usable after it gives the fallback. */
  lemma {:induction false} GetArgDanglingFlag(before: seq<string>, flag: string, fallback: Option<string>)
    requires flag !in before
    ensures GetArg(before + [flag], flag, fallback) == fallback
  {
    var argv := before + [flag];
    assert argv[|before|] == flag && argv[..|before|] == before;
    var i := IndexOf(argv, flag);
  }

  /** ECMAScript's StrWhiteSpaceChar: white space and line terminators. */
  predicate IsJsWhitespace(c: char) {
    || c == '\t' || c == '\n' || c == '\U{000B}' || c == '\U{000C}' || c == '\r' || c == ' '
    || c == '\U{00A0}' || c == '\U{1680}' || ('\U{2000}' <= c <= '\U{200A}')
    || c == '\U{2028}' || c == '\U{2029}' || c == '\U{202F}' || c == '\U{205F}' || c == '\U{3000}'
    || c == '\U{FEFF}'
  }

  /** `s` with its leading white space removed. */
  function TrimStart(s: string): (t: string)
    ensures |t| <= |s| && t == s[|s| - |t|..]
    ensures forall i :: 0 <= i < |s| - |t| ==> IsJsWhitespace(s[i])
    ensures |t| > 0 ==> !IsJsWhitespace(t[0])
    decreases |s|
  {
    if |s| > 0 && IsJsWhitespace(s[0]) then TrimStart(s[1..]) else s
  }

  /** The part of `t` after an optional leading sign. */
  function Unsigned(t: string): (u: string)
    ensures |t| > 0 && (t[0] == '-' || t[0] == '+') ==> u == t[1..]
    ensures !(|t| > 0 && (t[0] == '-' || t[0] == '+')) ==> u == t
  {
    if |t| > 0 && (t[0] == '-' || t[0] == '+') then t[1..] else t
  }

  /** `Number.parseInt(s, 10)`: optional leading white space and sign, then the
      longest run of decimal digits; `None` (NaN) when there is no digit. */
  function ParseInt(s: string): Option<int> {
    ParseSigned(TrimStart(s))
  }

  /** `parseInt` after the white space: an optional sign, then the digit run. */
  function ParseSigned(t: string): Option<int> {
    var digits := LeadingDigits(Unsigned(t));
    if digits == "" then None
    else Some(if |t| > 0 && t[0] == '-' then -(DigitsValue(digits) as int) else DigitsValue(digits))
  }

  /** `s` split as `parseInt` reads it: the longest run of leading white space,
      then a sign if one is there, then the longest digit run, then a rest that
      does not start with a digit. */
  predicate ReadAs(s: string, ws: string, sign: string, d: string, rest: string) {
    && s == ws + sign + d + rest
    && (forall i :: 0 <= i < |ws| ==> IsJsWhitespace(ws[i]))
    && (|sign + d + rest| > 0 ==> !IsJsWhitespace((sign + d + rest)[0]))
    && (sign == "" || sign == "-" || sign == "+")
    && (sign == "" && |d + rest| > 0 ==> (d + rest)[0] != '-' && (d + rest)[0] != '+')
    && AllDigits(d)
    && (|rest| > 0 ==> !IsDigit(rest[0]))
  }

  /** The number a sign and a digit run denote; no digits is NaN. */
  function SignedValue(sign: string, d: string): Option<int>
    requires AllDigits(d)
  {
    if d == "" then None
    else Some(if sign == "-" then -(DigitsValue(d) as int) else DigitsValue(d))
  }

  /** Every string splits as `parseInt` reads it, and the result is the value of
      that split's sign and digit run: `None` (NaN) exactly when the run is empty. */
  lemma ParseIntSplits(s: string)
    ensures exists ws, sign, d, rest :: ReadAs(s, ws, sign, d, rest) && ParseInt(s) == SignedValue(sign, d)
  {
    var t := TrimStart(s);
    var sign, d, rest := SignedSplit(t);
    var ws := s[..|s| - |t|];
    assert s == ws + t;
    WhitespacePrefix(s, t, ws);
    ReadAsTrimmed(s, t, ws, sign, d, rest);
    assert ParseInt(s) == ParseSigned(t);
  }

  lemma ReadAsTrimmed(s: string, t: string, ws: string, sign: string, d: string, rest: string)
    requires s == ws + t && (forall i :: 0 <= i < |ws| ==> IsJsWhitespace(ws[i]))
    requires |t| > 0 ==> !IsJsWhitespace(t[0])
    requires t == sign + d + rest
    requires sign == "" || sign == "-" || sign == "+"
    requires sign == "" && |d + rest| > 0 ==> (d + rest)[0] != '-' && (d + rest)[0] != '+'
    requires AllDigits(d) && (|rest| > 0 ==> !IsDigit(rest[0]))
    ensures ReadAs(s, ws, sign, d, rest)
  {
    ConcatRegroup(ws, sign, d, rest);
  }

  lemma ConcatRegroup(a: string, b: string, c: string, d: string)
    ensures a + b + c + d == a + (b + c + d)
  {
  }

  lemma WhitespacePrefix(s: string, t: string, ws: string)
    requires t == TrimStart(s) && ws == s[..|s| - |t|]
    ensures forall i :: 0 <= i < |ws| ==> IsJsWhitespace(ws[i])
  {
    forall i | 0 <= i < |ws|
      ensures IsJsWhitespace(ws[i])
    {
      assert ws[i] == s[i];
    }
  }

  /** After the white space: the sign, the digit run and the rest. */
  lemma SignedSplit(t: string) returns (sign: string, d: string, rest: string)
    ensures t == sign + d + rest
    ensures sign == "" || sign == "-" || sign == "+"
    ensures sign == "" && |d + rest| > 0 ==> (d + rest)[0] != '-' && (d + rest)[0] != '+'
    ensures AllDigits(d) && (|rest| > 0 ==> !IsDigit(rest[0]))
    ensures ParseSigned(t) == SignedValue(sign, d)
  {
    var u := Unsigned(t);
    d := LeadingDigits(u);
    rest := u[|d|..];
    assert u == d + rest;
    if |t| > 0 && (t[0] == '-' || t[0] == '+') {
      sign := [t[0]];
      assert t == sign + u;
      assert sign + d + rest == sign + (d + rest);
      assert sign == "-" <==> t[0] == '-';
    } else {
      sign := "";
      assert "" + d + rest == u;
    }
  }

  /** A digit run, possibly after white space and before trailing non-digits,
      parses to the number it denotes. */
  lemma {:induction false} ParseIntReadsDigits(ws: string, d: string, rest: string)
    requires forall i :: 0 <= i < |ws| ==> IsJsWhitespace(ws[i])
    requires AllDigits(d) && d != ""
    requires |rest| > 0 ==> !IsDigit(rest[0])
    ensures ParseInt(ws + d + rest) == Some(DigitsValue(d))
  {
    var x := ws + d + rest;
    var s := d + rest;
    assert s[0] == d[0];
    TrimWhitespacePrefix(ws, s);
    assert x == ws + s;
    assert TrimStart(x) == s;
    assert Unsigned(s) == s;
    LeadingDigitsOfRun(d, rest);
  }

  /** A bare digit run parses to the number it denotes. */
  lemma ParseIntOfDigits(d: string)
    requires AllDigits(d) && d != ""
    ensures ParseInt(d) == Some(DigitsValue(d))
  {
    assert TrimStart(d) == d;
    assert Unsigned(d) == d;
    LeadingDigitsOfRun(d, "");
    assert d + "" == d;
  }

  /** After a minus sign, the negated number. */
  lemma ParseIntOfNegatedDigits(d: string)
    requires AllDigits(d) && d != ""
    ensures ParseInt("-" + d) == Some(-(DigitsValue(d) as int))
  {
    var s := "-" + d;
    assert s[0] == '-' && s[1..] == d;
    assert TrimStart(s) == s;
    LeadingDigitsOfRun(d, "");
    assert d + "" == d;
    NegativeSigned(s, d);
  }

  lemma NegativeSigned(t: string, d: string)
    requires |t| > 0 && t[0] == '-' && d != "" && AllDigits(d) && LeadingDigits(t[1..]) == d
    ensures ParseSigned(t) == Some(-(DigitsValue(d) as int))
  {
    assert Unsigned(t) == t[1..];
  }

  /** Leading white space is skipped up to the first character that is not white space. */
  lemma {:induction false} TrimWhitespacePrefix(ws: string, s: string)
    requires forall i :: 0 <= i < |ws| ==> IsJsWhitespace(ws[i])
    requires |s| > 0 && !IsJsWhitespace(s[0])
    ensures TrimStart(ws + s) == s
    decreases |ws|
  {
    if |ws| > 0 {
      assert (ws + s)[1..] == ws[1..] + s;
      TrimWhitespacePrefix(ws[1..], s);
    } else {
      assert ws + s == s;
    }
  }

  /** `toInt(value, fallback)`: the parsed integer when it is positive, else the
      fallback. An absent value (`null`) never parses. */
  function ToInt(value: Option<string>, fallback: Option<int>): (r: Option<int>)
    ensures r == fallback || (r.Some? && r.value > 0)
    ensures value.Some? && ParseInt(value.value).Some? && ParseInt(value.value).value > 0 ==>
              r == ParseInt(value.value)
    ensures (value.None? || ParseInt(value.value).None? || ParseInt(value.value).value <= 0) ==> r == fallback
  {
    if value.Some? then
      var parsed := ParseInt(value.value);
      if parsed.Some? && parsed.value > 0 then parsed else fallback
    else fallback
  }

  /** A positive count written out is read back. */
  lemma ToIntRoundTrip(n: nat, fallback: Option<int>)
    requires n > 0
    ensures ToInt(Some(Show(n)), fallback) == Some(n)
  {
    ParseIntOfDigits(Show(n));
  }

  /** Negative numbers and zero fall back. */
  lemma ToIntRejectsNonPositive(n: nat, fallback: Option<int>)
    ensures ToInt(Some("-" + Show(n)), fallback) == fallback
    ensures ToInt(Some(Show(0)), fallback) == fallback
  {
    ParseIntOfNegatedDigits(Show(n));
    ParseIntOfDigits(Show(0));
  }

  /** The run's settings as read from the command line. */
  datatype Config = Config(
    count: int,
    batch: int,
    minBytes: int,
    model: string,
    out: string,
    maxOutputTokensArg: Option<int>,
    timeoutMs: int,
    maxBatchesArg: Option<int>)

  /** The settings `main` reads, each defaulting as the script does. */
  function ParseConfig(argv: seq<string>): (c: Config)
    ensures c.count > 0 && c.batch > 0 && c.minBytes > 0 && c.timeoutMs > 0
    ensures c.maxOutputTokensArg.Some? ==> c.maxOutputTokensArg.value > 0
    ensures c.maxBatchesArg.Some? ==> c.maxBatchesArg.value > 0
    ensures "--count" !in argv ==> c.count == DefaultCount
    ensures "--batch" !in argv ==> c.batch == DefaultBatch
    ensures "--min-bytes" !in argv ==> c.minBytes == DefaultMinBytes
    ensures "--model" !in argv ==> c.model == DefaultModel
    ensures "--out" !in argv ==> c.out == DefaultOut
    ensures "--timeout" !in argv ==> c.timeoutMs == DefaultTimeoutMs
    ensures "--max-output-tokens" !in argv ==> c.maxOutputTokensArg.None?
    ensures "--max-batches" !in argv ==> c.maxBatchesArg.None?
  {
    Config(
      count := ToInt(GetArg(argv, "--count", None), Some(DefaultCount)).value,
      batch := ToInt(GetArg(argv, "--batch", None), Some(DefaultBatch)).value,
      minBytes := ToInt(GetArg(argv, "--min-bytes", None), Some(DefaultMinBytes)).value,
      model := GetArg(argv, "--model", Some(DefaultModel)).value,
      out := GetArg(argv, "--out", Some(DefaultOut)).value,
      maxOutputTokensArg := ToInt(GetArg(argv, "--max-output-tokens", None), None),
      timeoutMs := ToInt(GetArg(argv, "--timeout", None), Some(DefaultTimeoutMs)).value,
      maxBatchesArg := ToInt(GetArg(argv, "--max-batches", None), None))
  }

  /** A number written out is a usable flag value: it is non-empty and starts with a digit. */
  lemma ShowIsUsable(n: nat)
    ensures UsableValue(Show(n))
  {
    var s := Show(n);
    assert IsDigit(s[0]);
  }

  /** A positive number written after the first occurrence of a numeric flag is
      the value `toInt(getArg(flag), fallback)` reads, whatever the fallback. */
  lemma {:induction false} NumericFlagRead(before: seq<string>, flag: string, n: nat, after: seq<string>,
                                           fallback: Option<int>)
    requires flag !in before && n > 0
    ensures ToInt(GetArg(before + [flag, Show(n)] + after, flag, None), fallback) == Some(n)
  {
    ShowIsUsable(n);
    GetArgFindsValue(before, flag, Show(n), after, None);
    ToIntRoundTrip(n, fallback);
  }

  /** A numeric flag given a positive number, with no earlier occurrence of that
      flag, sets its setting to that number. */
  lemma {:induction false} ParseConfigReadsNumber(before: seq<string>, flag: string, n: nat, after: seq<string>)
    requires flag !in before && n > 0
    ensures var c := ParseConfig(before + [flag, Show(n)] + after);
            && (flag == "--count" ==> c.count == n)
            && (flag == "--batch" ==> c.batch == n)
            && (flag == "--min-bytes" ==> c.minBytes == n)
            && (flag == "--timeout" ==> c.timeoutMs == n)
            && (flag == "--max-output-tokens" ==> c.maxOutputTokensArg == Some(n))
            && (flag == "--max-batches" ==> c.maxBatchesArg == Some(n))
  {
    NumericFlagRead(before, flag, n, after, Some(DefaultCount));
    NumericFlagRead(before, flag, n, after, Some(DefaultBatch));
    NumericFlagRead(before, flag, n, after, Some(DefaultMinBytes));
    NumericFlagRead(before, flag, n, after, Some(DefaultTimeoutMs));
    NumericFlagRead(before, flag, n, after, None);
  }

  /** `--model` or `--out` followed by a usable value, with no earlier occurrence
      of that flag, sets the model or the output path. */
  lemma {:induction false} ParseConfigReadsName(before: seq<string>, flag: string, v: string, after: seq<string>)
    requires flag !in before && UsableValue(v)
    ensures var c := ParseConfig(before + [flag, v] + after);
            && (flag == "--model" ==> c.model == v)
            && (flag == "--out" ==> c.out == v)
  {
    GetArgFindsValue(before, flag, v, after, Some(DefaultModel));
    GetArgFindsValue(before, flag, v, after, Some(DefaultOut));
  }

  /** Whatever follows the first occurrence of a flag decides `getArg`: the next
      element when it is usable, otherwise the fallback. */
  lemma {:induction false} GetArgAfterFirst(before: seq<string>, flag: string, rest: seq<string>,
                                            fallback: Option<string>)
    requires flag !in before
    ensures GetArg(before + [flag] + rest, flag, fallback) ==
            if |rest| > 0 && UsableValue(rest[0]) then Some(rest[0]) else fallback
  {
    var argv := before + [flag] + rest;
    assert argv[|before|] == flag && argv[..|before|] == before;
    var i := IndexOf(argv, flag);
    assert i == |before|;
    assert |rest| > 0 ==> argv[i + 1] == rest[0];
  }

  /** A value that does not read as a positive number: absent, flag-like, empty,
      not numeric, zero or negative. */
  predicate NoPositiveValue(rest: seq<string>) {
    |rest| == 0 || !UsableValue(rest[0]) || ParseInt(rest[0]).None? || ParseInt(rest[0]).value <= 0
  }

  /** `toInt(getArg(flag), fallback)` reads the value after the first occurrence
      of `flag` when it is a positive number, and gives the fallback otherwise. */
  lemma {:induction false} NumericFlagAfterFirst(before: seq<string>, flag: string, rest: seq<string>,
                                                 fallback: Option<int>)
    requires flag !in before
    ensures ToInt(GetArg(before + [flag] + rest, flag, None), fallback) ==
            if NoPositiveValue(rest) then fallback else ParseInt(rest[0])
  {
    GetArgAfterFirst(before, flag, rest, None);
  }

  /** A numeric flag whose first occurrence is last, or is followed by another
      flag, an empty string, junk or a non-positive number, leaves its setting at
      the default, or unset for the optional ones. */
  lemma {:induction false} ParseConfigFallsBack(before: seq<string>, flag: string, rest: seq<string>)
    requires flag !in before && NoPositiveValue(rest)
    ensures var c := ParseConfig(before + [flag] + rest);
            && (flag == "--count" ==> c.count == DefaultCount)
            && (flag == "--batch" ==> c.batch == DefaultBatch)
            && (flag == "--min-bytes" ==> c.minBytes == DefaultMinBytes)
            && (flag == "--timeout" ==> c.timeoutMs == DefaultTimeoutMs)
            && (flag == "--max-output-tokens" ==> c.maxOutputTokensArg.None?)
            && (flag == "--max-batches" ==> c.maxBatchesArg.None?)
  {
    NumericFlagAfterFirst(before, flag, rest, Some(DefaultCount));
    NumericFlagAfterFirst(before, flag, rest, Some(DefaultBatch));
    NumericFlagAfterFirst(before, flag, rest, Some(DefaultMinBytes));
    NumericFlagAfterFirst(before, flag, rest, Some(DefaultTimeoutMs));
    NumericFlagAfterFirst(before, flag, rest, None);
  }

  /** `--model` or `--out` whose first occurrence is last, or is followed by an
      empty string or another flag, keeps the default model or output path. */
  lemma {:induction false} ParseConfigNameFallsBack(before: seq<string>, flag: string, rest: seq<string>)
    requires flag !in before && (|rest| == 0 || !UsableValue(rest[0]))
    ensures var c := ParseConfig(before + [flag] + rest);
            && (flag == "--model" ==> c.model == DefaultModel)
            && (flag == "--out" ==> c.out == DefaultOut)
  {
    GetArgAfterFirst(before, flag, rest, Some(DefaultModel));
    GetArgAfterFirst(before, flag, rest, Some(DefaultOut));
  }

  /** A numeric flag whose first occurrence is followed by any text `parseInt`
      reads as a positive number (" 7", "12abc", "+3") takes that number. */
  lemma {:induction false} ParseConfigReadsValue(before: seq<string>, flag: string, v: string, after: seq<string>)
    requires flag !in before && UsableValue(v) && ParseInt(v).Some? && ParseInt(v).value > 0
    ensures var c := ParseConfig(before + [flag, v] + after);
            var n := ParseInt(v).value;
            && (flag == "--count" ==> c.count == n)
            && (flag == "--batch" ==> c.batch == n)
            && (flag == "--min-bytes" ==> c.minBytes == n)
            && (flag == "--timeout" ==> c.timeoutMs == n)
            && (flag == "--max-output-tokens" ==> c.maxOutputTokensArg == Some(n))
            && (flag == "--max-batches" ==> c.maxBatchesArg == Some(n))
  {
    var argv := before + [flag, v] + after;
    assert argv == before + [flag] + ([v] + after);
    assert !NoPositiveValue([v] + after);
    NumericFlagAfterFirst(before, flag, [v] + after, Some(DefaultCount));
    NumericFlagAfterFirst(before, flag, [v] + after, Some(DefaultBatch));
    NumericFlagAfterFirst(before, flag, [v] + after, Some(DefaultMinBytes));
    NumericFlagAfterFirst(before, flag, [v] + after, Some(DefaultTimeoutMs));
    NumericFlagAfterFirst(before, flag, [v] + after, None);
  }

  /** A dangling `--count` keeps the default count. */
  lemma DanglingCountFallsBack()
    ensures ParseConfig(["--count"]).count == DefaultCount
  {
    assert ["--count"] == [] + ["--count"] + [];
    ParseConfigFallsBack([], "--count", []);
  }

  /** `--count 0` keeps the default count. */
  lemma CountOfZeroFallsBack()
    ensures ParseConfig(["--count", "0"]).count == DefaultCount
  {
    assert AllDigits("0") && "0"[..0] == "";
    assert DigitsValue("0") == 0;
  }

  /** `--count abc` keeps the default count. */
  lemma CountOfJunkFallsBack()
    ensures ParseConfig(["--count", "abc"]).count == DefaultCount
  {
    assert !IsJsWhitespace('a') && !IsDigit('a');
    assert TrimStart("abc") == "abc";
    assert ParseInt("abc").None?;
    assert ["--count", "abc"] == [] + ["--count"] + ["abc"];
    ParseConfigFallsBack([], "--count", ["abc"]);
  }

  /** `Math.ceil(a / b)` for positive integers: the least `q` with `a <= b * q`. */
  function CeilDiv(a: nat, b: nat): (q: nat)
    requires b > 0
    ensures a <= b * q
    ensures q > 0 ==> b * (q - 1) < a
  {
    (a + b - 1) / b
  }

  /** `Math.max(1, maxBatchesArg ?? Math.ceil(count / batch) * 2)`. */
  function MaxBatches(count: nat, batch: nat, maxBatchesArg: Option<int>): (n: int)
    requires batch > 0
    ensures n >= 1
    ensures maxBatchesArg.Some? && maxBatchesArg.value >= 1 ==> n == maxBatchesArg.value
    ensures maxBatchesArg.None? && count > 0 ==> n == 2 * CeilDiv(count, batch) && batch * n >= 2 * count
  {
    var n := if maxBatchesArg.Some? then maxBatchesArg.value else CeilDiv(count, batch) * 2;
    if n < 1 then 1 else n
  }

  /** `Math.min(batch, count - size)`: a batch never asks for more lines than are missing. */
  function RequestCount(batch: int, remaining: int): (n: int)
    ensures n <= batch && n <= remaining
    ensures n == batch || n == remaining
  {
    if batch <= remaining then batch else remaining
  }

  /** `maxOutputTokensArg ?? Math.max(800, requestCount * 25)`. */
  function MaxOutputTokens(maxOutputTokensArg: Option<int>, requestCount: int): (n: int)
    ensures maxOutputTokensArg.Some? ==> n == maxOutputTokensArg.value
    ensures maxOutputTokensArg.None? ==> n >= MinOutputTokens && n >= TokensPerLine * requestCount
    ensures maxOutputTokensArg.None? ==> n == MinOutputTokens || n == TokensPerLine * requestCount
  {
    if maxOutputTokensArg.Some? then maxOutputTokensArg.value
    else if MinOutputTokens >= requestCount * TokensPerLine then MinOutputTokens
    else requestCount * TokensPerLine
  }
}
