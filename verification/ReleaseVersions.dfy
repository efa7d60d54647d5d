/** Stable and development versions of scripts/release-flow.js, ordered as in Semantic Versioning 2.0.0, section 11. */
module ReleaseVersions {
  import opened Common
  import opened ReleaseDocument

  // ----- Numbers -----------------------------------------------------------------------------------------

  predicate IsDigit(c: char) {
    '0' <= c <= '9'
  }

  predicate AllDigits(s: string) {
    s == "" || (IsDigit(s[|s| - 1]) && AllDigits(s[..|s| - 1]))
  }

  /** `0|[1-9]\d*`. */
  predicate IsNumber(s: string) {
    s != "" && AllDigits(s) && (s[0] == '0' ==> |s| == 1)
  }

  /** The number that a string of digits writes. */
  function NumberOf(s: string): nat
    requires AllDigits(s)
  {
    if s == "" then 0 else 10 * NumberOf(s[..|s| - 1]) + (s[|s| - 1] as int - '0' as int)
  }

  lemma {:induction false} DigitChar(n: nat)
    requires n < 10
    ensures "0123456789"[n] == ('0' as int + n) as char
  {
  }

  lemma {:induction false} DecimalIsNumber(n: nat)
    ensures IsNumber(Decimal(n)) && NumberOf(Decimal(n)) == n && (n > 0 ==> Decimal(n)[0] != '0')
  {
    if n < 10 {
      DigitChar(n);
      assert Decimal(n)[..0] == "";
    } else {
      DecimalIsNumber(n / 10);
      DigitChar(n % 10);
      SnocFront(Decimal(n / 10), "0123456789"[n % 10]);
    }
  }

  lemma {:induction false} LeadingDigit(s: string)
    requires AllDigits(s) && s != "" && s[0] != '0'
    ensures NumberOf(s) > 0 && IsDigit(s[0])
  {
    if |s| == 1 {
      assert s[..0] == "";
    } else {
      LeadingDigit(s[..|s| - 1]);
    }
  }

  /** A number written without leading zeros is the decimal text of its value. */
  lemma {:induction false} NumberIsDecimal(s: string)
    requires IsNumber(s)
    ensures Decimal(NumberOf(s)) == s
  {
    var front, last := s[..|s| - 1], s[|s| - 1];
    var digit := last as int - '0' as int;
    DigitChar(digit);
    if |s| == 1 {
      assert front == "" && s == [last];
    } else {
      LeadingDigit(front);
      NumberIsDecimal(front);
      FrontAndLast(s);
      var n := NumberOf(front);
      assert (10 * n + digit) / 10 == n && (10 * n + digit) % 10 == digit;
    }
  }

  // ----- Versions ----------------------------------------------------------------------------------------

  /** JavaScript `s.split(".")`. */
  function Split(s: string): (parts: seq<string>)
    ensures parts != []
  {
    if s == "" then [""]
    else
      var rest := Split(s[1..]);
      if s[0] == '.' then [""] + rest else [[s[0]] + rest[0]] + rest[1..]
  }

  lemma {:induction false} SplitAfter(part: string, rest: string)
    requires AllDigits(part)
    ensures Split(part + "." + rest) == [part] + Split(rest)
    decreases |part|
  {
    var s := part + "." + rest;
    if part == "" {
      assert s[1..] == rest;
    } else {
      DigitsFromFront(part);
      assert s[1..] == part[1..] + "." + rest;
      SplitAfter(part[1..], rest);
      var tail := Split(s[1..]);
      assert tail[0] == part[1..] && tail[1..] == Split(rest);
      assert [s[0]] + tail[0] == part;
    }
  }

  lemma {:induction false} SplitNumber(part: string)
    requires AllDigits(part)
    ensures Split(part) == [part]
    decreases |part|
  {
    if part != "" {
      DigitsFromFront(part);
      SplitNumber(part[1..]);
      assert [part[0]] + part[1..] == part;
    }
  }

  lemma {:induction false} DigitsFromFront(s: string)
    requires AllDigits(s) && s != ""
    ensures IsDigit(s[0]) && AllDigits(s[1..])
  {
    if |s| > 1 {
      DigitsFromFront(s[..|s| - 1]);
      assert s[1..][..|s| - 2] == s[..|s| - 1][1..];
    }
  }

  function Joined(parts: seq<string>): string {
    if parts == [] then "" else if |parts| == 1 then parts[0] else parts[0] + "." + Joined(parts[1..])
  }

  lemma {:induction false} JoinSplit(s: string)
    ensures Joined(Split(s)) == s
  {
    if s != "" {
      JoinSplit(s[1..]);
      var rest := Split(s[1..]);
      if s[0] == '.' {
        assert ([""] + rest)[1..] == rest;
      } else {
        assert ([[s[0]] + rest[0]] + rest[1..])[1..] == rest[1..];
      }
    }
  }

  /** The number triple of a version, and whether it is the development version of it. */
  datatype Version = Version(major: nat, minor: nat, patch: nat, devel: bool)

  function Text(v: Version): string {
    Decimal(v.major) + "." + (Decimal(v.minor) + "." + Decimal(v.patch)) + if v.devel then "-devel" else ""
  }

  predicate ThreeNumbers(parts: seq<string>) {
    |parts| == 3 && IsNumber(parts[0]) && IsNumber(parts[1]) && IsNumber(parts[2])
  }

  /** The test of STABLE. */
  predicate IsStable(s: string) {
    ThreeNumbers(Split(s))
  }

  /** The test of DEVELOPMENT. */
  predicate IsDevelopment(s: string) {
    |s| >= 6 && s[|s| - 6..] == "-devel" && IsStable(s[..|s| - 6])
  }

  function StableOf(s: string): Version
    requires IsStable(s)
  {
    var parts := Split(s);
    Version(NumberOf(parts[0]), NumberOf(parts[1]), NumberOf(parts[2]), false)
  }

  /** Stable versions and number triples are the same thing: writing and reading are inverse. */
  lemma {:induction false} StableRoundTrip(v: Version)
    requires !v.devel
    ensures IsStable(Text(v)) && StableOf(Text(v)) == v
  {
    DecimalIsNumber(v.major);
    DecimalIsNumber(v.minor);
    DecimalIsNumber(v.patch);
    var rest := Decimal(v.minor) + "." + Decimal(v.patch);
    AddNothing(Decimal(v.major) + "." + rest);
    SplitAfter(Decimal(v.major), rest);
    SplitAfter(Decimal(v.minor), Decimal(v.patch));
    SplitNumber(Decimal(v.patch));
  }

  lemma {:induction false} StableIsText(s: string)
    requires IsStable(s)
    ensures Text(StableOf(s)) == s
  {
    JoinSplit(s);
    var parts := Split(s);
    NumberIsDecimal(parts[0]);
    NumberIsDecimal(parts[1]);
    NumberIsDecimal(parts[2]);
    assert parts[1..] == [parts[1], parts[2]] && parts[1..][1..] == [parts[2]];
    assert Joined(parts[1..]) == parts[1] + "." + parts[2] by {
      assert Joined([parts[2]]) == parts[2];
    }
    AddNothing(s);
  }

  // ----- The conversions ---------------------------------------------------------------------------------

  /** What a conversion returns; Inexact stands for arithmetic beyond the integers a JavaScript number holds. */
  datatype Converted = Text(text: string) | Refused | Inexact

  const MAX_SAFE := 0x1F_FFFF_FFFF_FFFF

  predicate Exact(v: Version) {
    v.major <= MAX_SAFE && v.minor <= MAX_SAFE && v.patch <= MAX_SAFE
  }

  function ReleaseVersionFromDevelopment(s: string): Converted {
    if IsDevelopment(s) then Converted.Text(s[..|s| - 6]) else Refused
  }

  function DevelopmentVersionFromStable(s: string): Converted {
    if !IsStable(s) then Refused
    else
      var v := StableOf(s);
      if Exact(v) then
        Converted.Text(Decimal(v.major) + "." + (Decimal(v.minor) + "." + Decimal(v.patch + 1)) + "-devel")
      else Inexact
  }

  // ----- Precedence --------------------------------------------------------------------------------------

  /** Section 11: by major, minor and patch number; a pre-release comes before its version. */
  predicate Precedes(a: Version, b: Version) {
    a.major < b.major
    || (a.major == b.major && a.minor < b.minor)
    || (a.major == b.major && a.minor == b.minor && a.patch < b.patch)
    || (a.major == b.major && a.minor == b.minor && a.patch == b.patch && a.devel && !b.devel)
  }

  function Next(v: Version): Version {
    v.(patch := v.patch + 1, devel := false)
  }

  lemma {:induction false} CutSuffix(front: string, suffix: string)
    ensures (front + suffix)[..|front + suffix| - |suffix|] == front
    ensures (front + suffix)[|front + suffix| - |suffix|..] == suffix
  {
  }

  /**
   From a stable version to the development version after it and on to its release: every step moves up
   in precedence, and no stable version lies strictly between the two releases.
   */
  lemma {:induction false} DevelopmentLeadsToNextRelease(s: string)
    requires IsStable(s) && Exact(StableOf(s))
    ensures var v := StableOf(s); var next := Next(v);
      && DevelopmentVersionFromStable(s) == Converted.Text(Text(next.(devel := true)))
      && ReleaseVersionFromDevelopment(Text(next.(devel := true))) == Converted.Text(Text(next))
      && IsStable(Text(next)) && StableOf(Text(next)) == next
      && Precedes(v, next.(devel := true)) && Precedes(next.(devel := true), next)
      && (forall w: Version :: !w.devel && Precedes(v, w) ==> w == next || Precedes(next, w))
  {
    var next := Next(StableOf(s));
    var release := Text(next);
    StableRoundTrip(next);
    var numbers := Decimal(next.major) + "." + (Decimal(next.minor) + "." + Decimal(next.patch));
    AddNothing(numbers);
    CutSuffix(numbers, "-devel");
  }

  /** A release version is taken from exactly the texts that are a stable version followed by -devel. */
  lemma {:induction false} ReleaseUndoesDevel(s: string, release: string)
    ensures ReleaseVersionFromDevelopment(s) == Converted.Text(release)
      <==> IsStable(release) && s == release + "-devel"
  {
    if IsDevelopment(s) {
      SplitAt(s, 0, |s| - 6);
    }
    if s == release + "-devel" {
      CutSuffix(release, "-devel");
    }
  }

  /** One round: the development version after a release, and its release. */
  function Round(s: string): Converted {
    match DevelopmentVersionFromStable(s)
    case Text(d) => ReleaseVersionFromDevelopment(d)
    case other => other
  }

  lemma {:induction false} RoundIsNext(v: Version)
    requires !v.devel && Exact(v)
    ensures Round(Text(v)) == Converted.Text(Text(Next(v)))
  {
    StableRoundTrip(v);
    DevelopmentLeadsToNextRelease(Text(v));
  }

  function Rounds(round: string -> Converted, s: string, n: nat): Converted {
    if n == 0 then Converted.Text(s)
    else
      var before := Rounds(round, s, n - 1);
      if before.Text? then round(before.text) else before
  }

  lemma {:induction false} RoundsOfSteps(round: string -> Converted, write: Version -> string, v: Version, n: nat)
    requires forall w: Version :: !w.devel && Exact(w) ==> round(write(w)) == Converted.Text(write(Next(w)))
    requires !v.devel && v.major <= MAX_SAFE && v.minor <= MAX_SAFE && v.patch + n <= MAX_SAFE + 1
    ensures Rounds(round, write(v), n) == Converted.Text(write(v.(patch := v.patch + n)))
  {
    if n > 0 {
      RoundsOfSteps(round, write, v, n - 1);
      var before := v.(patch := v.patch + n - 1);
      assert round(write(before)) == Converted.Text(write(Next(before)));
    }
  }

  /** Any number of rounds adds that number to the patch, so no release version comes twice. */
  lemma {:induction false} RoundsCountUp(v: Version, n: nat)
    requires !v.devel && v.major <= MAX_SAFE && v.minor <= MAX_SAFE && v.patch + n <= MAX_SAFE + 1
    ensures Rounds(Round, Text(v), n) == Converted.Text(Text(v.(patch := v.patch + n)))
  {
    forall w: Version | !w.devel && Exact(w)
      ensures Round(Text(w)) == Converted.Text(Text(Next(w)))
    {
      RoundIsNext(w);
    }
    RoundsOfSteps(Round, Text, v, n);
  }
}
