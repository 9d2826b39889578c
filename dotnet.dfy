/** The parts of the .NET base library whose behaviour the core depends on:
    nullable values, exceptions and their messages, Guid values and their
    textual form, the string predicates the guards use, ASCII encoding,
    lower-casing and file-name extensions. */
module DotNet {

  /** A C# reference or nullable value: `None` stands for `null`. */
  datatype Option<+T> = None | Some(value: T)

  /** The outcome of a call that may throw: a value, or the exception thrown. */
  datatype Outcome<+T> = Normal(value: T) | Thrown(error: Exception)

  /** The exception types the core throws or lets through. */
  datatype Exception =
    | ArgumentException(text: string, paramName: string)   // new ArgumentException(message, paramName)
    | ArgumentNullException(paramName: string)             // new ArgumentNullException(paramName)
    | KeyNotFoundException(text: string)
    | InvalidOperationException(text: string)
    | DbUpdateException(text: string)                      // raised by SaveChanges
    | PlainException(text: string)                         // new Exception(message)

  /** `Exception.Message` as .NET formats it: argument exceptions append a
      non-empty parameter name, and the one-string ArgumentNullException
      constructor takes a parameter name, not a message. */
  function Message(e: Exception): (m: string)
    ensures e.ArgumentNullException? ==>
      m == "Value cannot be null." + (if e.paramName == "" then "" else " (Parameter '" + e.paramName + "')")
    ensures e.ArgumentException? ==>
      m == e.text + (if e.paramName == "" then "" else " (Parameter '" + e.paramName + "')")
    ensures !e.ArgumentException? && !e.ArgumentNullException? ==> m == e.text
  {
    match e
    case ArgumentException(text, param) => ParameterSuffix(text, param)
    case ArgumentNullException(param) => ParameterSuffix("Value cannot be null.", param)
    case KeyNotFoundException(text) => text
    case InvalidOperationException(text) => text
    case DbUpdateException(text) => text
    case PlainException(text) => text
  }

  /** `ArgumentException.Message`: the suffix is added only when the
      parameter name is neither null nor empty. */
  function ParameterSuffix(text: string, param: string): string {
    if param == "" then text else text + " (Parameter '" + param + "')"
  }

  /** A byte, as in `byte[]`. */
  newtype byte = x: int | 0 <= x < 256
  type Bytes = seq<byte>

  // ---------------------------------------------------------------------
  // Guid
  // ---------------------------------------------------------------------

  /** A Guid, as the 128-bit number whose 32 hexadecimal digits its
      canonical text shows in order; `Guid.Empty` is zero. */
  type Guid = x: nat | x < Pow16(32)

  const EmptyGuid: Guid := 0

  /** 16 to the power n; positive, so `Guid.Empty` is a Guid. */
  function Pow16(n: nat): (r: nat)
    ensures r >= 1
  {
    if n == 0 then 1 else 16 * Pow16(n - 1)
  }

  function HexDigit(d: nat): (c: char)
    requires d < 16
  {
    if d < 10 then ('0' as int + d) as char else ('a' as int + d - 10) as char
  }

  function HexValue(c: char): nat {
    if '0' <= c <= '9' then c as int - '0' as int
    else if 'a' <= c <= 'f' then c as int - 'a' as int + 10
    else 0
  }

  /** The lowest `n` hexadecimal digits of `v`, most significant first. */
  function HexDigits(v: nat, n: nat): (s: string)
    ensures |s| == n
    ensures forall i :: 0 <= i < n ==> IsHexDigit(s[i])
  {
    if n == 0 then [] else HexDigits(v / 16, n - 1) + [HexDigit(v % 16)]
  }

  predicate IsHexDigit(c: char) {
    '0' <= c <= '9' || 'a' <= c <= 'f'
  }

  /** The number a string of hexadecimal digits denotes. */
  function ParseHex(s: string): nat {
    if s == [] then 0 else 16 * ParseHex(s[..|s| - 1]) + HexValue(s[|s| - 1])
  }

  lemma HexValueOfDigit(d: nat)
    requires d < 16
    ensures HexValue(HexDigit(d)) == d
  {
  }

  lemma {:induction false} ParseHexDigits(v: nat, n: nat)
    requires v < Pow16(n)
    ensures ParseHex(HexDigits(v, n)) == v
  {
    if n > 0 {
      var s := HexDigits(v, n);
      assert s[..|s| - 1] == HexDigits(v / 16, n - 1);
      assert v / 16 < Pow16(n - 1);
      ParseHexDigits(v / 16, n - 1);
      HexValueOfDigit(v % 16);
    }
  }

  /** `Guid.ToString()`: format "D", 32 lower-case hexadecimal digits in
      groups of 8-4-4-4-12 separated by hyphens. */
  function GuidToString(g: Guid): (s: string)
    ensures |s| == 36
    ensures s[8] == '-' && s[13] == '-' && s[18] == '-' && s[23] == '-'
  {
    var d := HexDigits(g, 32);
    d[..8] + "-" + d[8..12] + "-" + d[12..16] + "-" + d[16..20] + "-" + d[20..]
  }

  /** Reads the canonical text of a Guid back (the hyphens are skipped). */
  function ParseGuid(s: string): nat
    requires |s| == 36
  {
    ParseHex(s[..8] + s[9..13] + s[14..18] + s[19..23] + s[24..])
  }

  lemma GuidTextRoundTrip(g: Guid)
    ensures ParseGuid(GuidToString(g)) == g
  {
    var d := HexDigits(g, 32);
    var s := GuidToString(g);
    assert s[..8] == d[..8];
    assert s[9..13] == d[8..12];
    assert s[14..18] == d[12..16];
    assert s[19..23] == d[16..20];
    assert s[24..] == d[20..];
    assert d == d[..8] + d[8..12] + d[12..16] + d[16..20] + d[20..];
    ParseHexDigits(g, 32);
  }

  /** Distinct Guids have distinct texts, so the text identifies the Guid. */
  lemma GuidToStringInjective(g: Guid, h: Guid)
    ensures GuidToString(g) == GuidToString(h) ==> g == h
  {
    GuidTextRoundTrip(g);
    GuidTextRoundTrip(h);
  }

  // ---------------------------------------------------------------------
  // Strings
  // ---------------------------------------------------------------------

  /** `string.IsNullOrEmpty`. */
  function IsNullOrEmpty(s: Option<string>): (b: bool)
    ensures !b <==> s.Some? && |s.value| > 0
  {
    s.None? || s.value == ""
  }

  /** `char.IsWhiteSpace`: the Unicode space, line and paragraph separators,
      the control characters U+0009 to U+000D, and U+0085. */
  function IsWhiteSpace(c: char): (b: bool)
  {
    c == ' ' || '\t' <= c <= '\r' || c == '\U{85}' || c == '\U{A0}' || c == '\U{1680}'
    || '\U{2000}' <= c <= '\U{200A}' || c == '\U{2028}' || c == '\U{2029}'
    || c == '\U{202F}' || c == '\U{205F}' || c == '\U{3000}'
  }

  /** `string.IsNullOrWhiteSpace`: null, or no character other than white
      space; in particular every null or empty string is blank. */
  function IsNullOrWhiteSpace(s: Option<string>): (b: bool)
    ensures IsNullOrEmpty(s) ==> b
  {
    s.None? || forall i :: 0 <= i < |s.value| ==> IsWhiteSpace(s.value[i])
  }

  /** The ordinary separators are white space; letters, digits and the
      punctuation of e-mail addresses and phone numbers are not. */
  lemma WhiteSpaceCharacters(c: char)
    ensures c == ' ' || c == '\t' || c == '\n' || c == '\r' ==> IsWhiteSpace(c)
    ensures 'a' <= c <= 'z' || 'A' <= c <= 'Z' || '0' <= c <= '9' || c == '.' || c == '+' || c == '@' ==> !IsWhiteSpace(c)
    ensures IsWhiteSpace(c) ==> c <= '\U{3000}'
  {
  }

  /** A string is not blank exactly when it holds a character that is not
      white space. */
  lemma NotBlankHasVisibleCharacter(s: Option<string>)
    ensures !IsNullOrWhiteSpace(s) <==> s.Some? && exists i :: 0 <= i < |s.value| && !IsWhiteSpace(s.value[i])
  {
  }

  predicate StartsWith(s: string, prefix: string) {
    |prefix| <= |s| && s[..|prefix|] == prefix
  }

  predicate EndsWith(s: string, suffix: string) {
    |suffix| <= |s| && s[|s| - |suffix|..] == suffix
  }

  /** `Encoding.ASCII.GetBytes` for one character: characters outside ASCII
      are replaced by '?'. */
  function AsciiByte(c: char): byte {
    if c as int < 128 then c as int as byte else '?' as int as byte
  }

  /** `Encoding.ASCII.GetBytes`. */
  function AsciiBytes(s: string): (b: Bytes)
    ensures |b| == |s|
    ensures forall i :: 0 <= i < |s| ==> b[i] == AsciiByte(s[i])
  {
    if s == [] then [] else [AsciiByte(s[0])] + AsciiBytes(s[1..])
  }

  function LowerChar(c: char): char {
    if 'A' <= c <= 'Z' then (c as int + 32) as char else c
  }

  /** `string.ToLower`, for the ASCII letters. */
  function ToLower(s: string): (r: string)
    ensures |r| == |s|
    ensures forall i :: 0 <= i < |s| ==> r[i] == LowerChar(s[i])
  {
    if s == [] then [] else [LowerChar(s[0])] + ToLower(s[1..])
  }

  /** No '.' and no directory separator in `s`. */
  predicate PlainTail(s: string) {
    forall i :: 0 <= i < |s| ==> s[i] != '.' && s[i] != '/'
  }

  /** `Path.GetExtension` (Unix separators): the text from the last '.' of the
      last path segment to the end, or "" when that segment has no '.' or
      ends with it. */
  function GetExtension(path: string): (ext: string)
    ensures ext != "" <==> exists k :: 0 <= k < |path| - 1 && path[k] == '.' && PlainTail(path[k + 1..])
    ensures ext != "" ==> ext[0] == '.' && |ext| >= 2 && EndsWith(path, ext) && PlainTail(ext[1..])
  {
    ExtensionScan(path, |path|)
  }

  /** Scans `path[..i]` backwards, knowing that `path[i..]` is plain. */
  function ExtensionScan(path: string, i: nat): (ext: string)
    requires i <= |path| && PlainTail(path[i..])
    ensures ext != "" <==> exists k :: 0 <= k < i && k < |path| - 1 && path[k] == '.' && PlainTail(path[k + 1..])
    ensures ext != "" ==> ext[0] == '.' && |ext| >= 2 && EndsWith(path, ext) && PlainTail(ext[1..])
    decreases i
  {
    if i == 0 then ""
    else if path[i - 1] == '.' then (if i == |path| then "" else path[i - 1..])
    else if path[i - 1] == '/' then ""
    else
      assert path[i - 1..] == [path[i - 1]] + path[i..];
      ExtensionScan(path, i - 1)
  }
}
