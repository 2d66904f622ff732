/** The `java.lang.String` operations the services rely on, over ASCII:
    `toLowerCase`, `trim`, `isEmpty`, `contains`, `startsWith`, `substring`,
    `replace` of a literal, `replaceAll("\\s+", " ")` and `equalsIgnoreCase`. */
module JavaText {
  import opened Wrappers

  /** A Java `String` reference, which may be null. */
  type JString = Option<string>

  // ---------------------------------------------------------------- case

  function LowerChar(c: char): char {
    if 'A' <= c <= 'Z' then (c as int + 32) as char else c
  }

  /** `toLowerCase` restricted to ASCII letters. */
  function Lower(s: string): (r: string)
    ensures |r| == |s|
    ensures forall i :: 0 <= i < |s| ==> r[i] == LowerChar(s[i])
  {
    seq(|s|, i requires 0 <= i < |s| => LowerChar(s[i]))
  }

  function LowerOpt(s: JString): JString {
    match s
    case None => None
    case Some(v) => Some(Lower(v))
  }

  lemma LowerIdempotent(s: string)
    ensures Lower(Lower(s)) == Lower(s)
  {
  }

  /** `a.equalsIgnoreCase(b)`: false when `b` is null. */
  predicate EqualsIgnoreCase(a: string, b: JString) {
    b.Some? && Lower(a) == Lower(b.value)
  }

  // ---------------------------------------------------------------- trim

  /** Java's `trim` removes every leading and trailing character whose code is at most U+0020. */
  predicate IsTrimmable(c: char) {
    c <= ' '
  }

  function TrimStart(s: string): (r: string)
    ensures |r| <= |s| && r == s[|s| - |r|..]
    ensures r == [] || !IsTrimmable(r[0])
    ensures forall i :: 0 <= i < |s| - |r| ==> IsTrimmable(s[i])
  {
    if |s| > 0 && IsTrimmable(s[0]) then TrimStart(s[1..]) else s
  }

  function TrimEnd(s: string): (r: string)
    ensures |r| <= |s| && r == s[..|r|]
    ensures r == [] || !IsTrimmable(r[|r| - 1])
    ensures forall i :: |r| <= i < |s| ==> IsTrimmable(s[i])
  {
    if |s| > 0 && IsTrimmable(s[|s| - 1]) then TrimEnd(s[..|s| - 1]) else s
  }

  function Trim(s: string): string {
    TrimEnd(TrimStart(s))
  }

  /** `s.trim().isEmpty()`. */
  predicate IsBlank(s: string) {
    Trim(s) == []
  }

  /** A string is blank exactly when every character of it is trimmable. */
  lemma BlankIff(s: string)
    ensures IsBlank(s) <==> forall i :: 0 <= i < |s| ==> IsTrimmable(s[i])
  {
    var t := TrimStart(s);
    if t != [] {
      assert t[0] == s[|s| - |t|];
    }
  }

  /** Lower-casing never turns a blank string into a non-blank one or back. */
  lemma LowerPreservesBlank(s: string)
    ensures IsBlank(Lower(s)) <==> IsBlank(s)
  {
    BlankIff(s);
    BlankIff(Lower(s));
  }

  /** `search == null || search.trim().isEmpty()`. */
  predicate IsNullOrBlank(s: JString) {
    s.None? || IsBlank(s.value)
  }

  // ---------------------------------------------------------------- numbers

  const TwoTo32: int := 0x1_0000_0000
  const TwoTo31: int := 0x8000_0000

  /** `Number.intValue()` on a whole JSON number (an Integer, Long or BigInteger):
      the low 32 bits read as a two's-complement `int`. */
  function IntValue(n: int): (r: int)
    ensures -TwoTo31 <= r < TwoTo31
    ensures (n - r) % TwoTo32 == 0
    ensures -TwoTo31 <= n < TwoTo31 ==> r == n
  {
    var low := n % TwoTo32;
    if low < TwoTo31 then low else low - TwoTo32
  }

  /** 2^32 + 1 seats read as one seat. */
  lemma IntValueWraps()
    ensures IntValue(TwoTo32 + 1) == 1
    ensures IntValue(TwoTo31) == -TwoTo31
  {
  }

  // ---------------------------------------------------------------- length

  /** A character's width in UTF-16: two code units beyond U+FFFF, one otherwise. */
  function CodeUnits(c: char): nat {
    if c as int > 0xFFFF then 2 else 1
  }

  /** `s.length()`: Java counts UTF-16 code units, so a character outside the Basic
      Multilingual Plane (an emoji, say) counts twice. */
  function JavaLength(s: string): (r: nat)
    ensures |s| <= r <= 2 * |s|
    ensures r == |s| <==> forall i :: 0 <= i < |s| ==> s[i] as int <= 0xFFFF
  {
    if s == [] then 0
    else
      var rest := JavaLength(s[1..]);
      assert forall i :: 1 <= i < |s| ==> s[i] == s[1..][i - 1];
      CodeUnits(s[0]) + rest
  }

  /** Lengths add up over concatenation. */
  lemma {:induction false} JavaLengthAppend(a: string, b: string)
    ensures JavaLength(a + b) == JavaLength(a) + JavaLength(b)
  {
    if a == [] {
      assert a + b == b;
    } else {
      assert (a + b)[1..] == a[1..] + b;
      JavaLengthAppend(a[1..], b);
    }
  }

  /** Whatever a string contains is no longer than it, counted in code units too. */
  lemma JavaLengthContained(s: string, t: string)
    requires Contains(s, t)
    ensures JavaLength(t) <= JavaLength(s)
  {
    var i :| 0 <= i <= |s| && StartsWith(s[i..], t);
    assert s == s[..i] + (t + s[i + |t|..]);
    JavaLengthAppend(t, s[i + |t|..]);
    JavaLengthAppend(s[..i], t + s[i + |t|..]);
  }

  /** Four emoji are eight code units long. */
  lemma FourEmojiAreEightUnits()
    ensures |"\U{1F600}\U{1F600}\U{1F600}\U{1F600}"| == 4
    ensures JavaLength("\U{1F600}\U{1F600}\U{1F600}\U{1F600}") == 8
  {
  }

  // ---------------------------------------------------------------- search

  predicate StartsWith(s: string, prefix: string) {
    |prefix| <= |s| && s[..|prefix|] == prefix
  }

  /** `s.contains(t)`: `t` occurs at some position of `s`. */
  predicate Contains(s: string, t: string) {
    exists i | 0 <= i <= |s| :: StartsWith(s[i..], t)
  }

  lemma ContainsEmpty(s: string)
    ensures Contains(s, "")
  {
    assert StartsWith(s[0..], "");
  }

  /** Whatever a string contains is no longer than the string. */
  lemma ContainsShorter(s: string, t: string)
    requires Contains(s, t)
    ensures |t| <= |s|
  {
  }

  lemma ContainsAt(s: string, t: string, i: nat)
    requires i + |t| <= |s| && s[i..i + |t|] == t
    ensures Contains(s, t)
  {
    assert StartsWith(s[i..], t);
  }

  /** Containment is transitive. */
  lemma ContainsTrans(s: string, t: string, u: string)
    requires Contains(s, t) && Contains(t, u)
    ensures Contains(s, u)
  {
    var i :| 0 <= i <= |s| && StartsWith(s[i..], t);
    var j :| 0 <= j <= |t| && StartsWith(t[j..], u);
    forall k | 0 <= k < |u|
      ensures s[i + j + k] == u[k]
    {
      assert t[j + k] == u[k];
      assert s[i + (j + k)] == t[j + k];
    }
    assert s[i + j..i + j + |u|] == u;
    ContainsAt(s, u, i + j);
  }

  // ---------------------------------------------------------------- replace

  /** `s.replace(target, "")`: one left-to-right pass removing non-overlapping occurrences. */
  function RemoveAll(s: string, target: string): (r: string)
    requires |target| > 0
    ensures |r| <= |s|
    decreases |s|
  {
    if |s| < |target| then s
    else if StartsWith(s, target) then RemoveAll(s[|target|..], target)
    else [s[0]] + RemoveAll(s[1..], target)
  }

  /** `\s` of a Java regular expression. */
  predicate IsRegexSpace(c: char) {
    c == ' ' || c == '\t' || c == '\n' || c == '\U{0B}' || c == '\U{0C}' || c == '\r'
  }

  function DropSpaces(s: string): (r: string)
    ensures |r| <= |s| && r == s[|s| - |r|..]
    ensures r == [] || !IsRegexSpace(r[0])
  {
    if |s| > 0 && IsRegexSpace(s[0]) then DropSpaces(s[1..]) else s
  }

  /** `s.replaceAll("\\s+", " ")`: every maximal run of whitespace becomes one space. */
  function CollapseSpaces(s: string): (r: string)
    decreases |s|
  {
    if s == [] then []
    else if IsRegexSpace(s[0]) then " " + CollapseSpaces(DropSpaces(s[1..]))
    else [s[0]] + CollapseSpaces(s[1..])
  }

  /** After collapsing, no two whitespace characters are adjacent. */
  lemma {:induction false} CollapseSpacesNoRuns(s: string)
    ensures forall i :: 0 <= i < |CollapseSpaces(s)| - 1 ==>
      !(IsRegexSpace(CollapseSpaces(s)[i]) && IsRegexSpace(CollapseSpaces(s)[i + 1]))
    ensures CollapseSpaces(s) == [] || s == [] || (IsRegexSpace(CollapseSpaces(s)[0]) <==> IsRegexSpace(s[0]))
    decreases |s|
  {
    if s == [] {
    } else if IsRegexSpace(s[0]) {
      var rest := DropSpaces(s[1..]);
      CollapseSpacesNoRuns(rest);
    } else {
      CollapseSpacesNoRuns(s[1..]);
    }
  }

  // ---------------------------------------------------------------- rendering

  function DigitChar(d: nat): char
    requires d < 10
  {
    "0123456789"[d]
  }

  function NatToDecimal(n: nat): string
    decreases n
  {
    if n < 10 then [DigitChar(n)] else NatToDecimal(n / 10) + [DigitChar(n % 10)]
  }

  /** `String.valueOf(long)`. */
  function LongToString(n: int): string {
    if n < 0 then "-" + NatToDecimal(-n) else NatToDecimal(n)
  }

  /** String concatenation renders a null reference as "null". */
  function Show(s: JString): string {
    match s
    case None => "null"
    case Some(v) => v
  }
}
