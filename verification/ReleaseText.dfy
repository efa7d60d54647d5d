/** Text formats of a release: commit SHAs, digests, asset names and the SHA256SUMS file. */
module ReleaseText {
  import opened Common
  import opened ReleaseDocument
  import opened CanonicalJson

  function LowerChar(c: char): char {
    if 'A' <= c <= 'Z' then (c as int + 32) as char else c
  }

  function Lower(s: string): (r: string)
    ensures |r| == |s|
  {
    seq(|s|, i requires 0 <= i < |s| => LowerChar(s[i]))
  }

  /** `/^[a-f0-9]{40}$/i`. */
  predicate IsSha(s: string) {
    |s| == 40 && IsHex(Lower(s))
  }

  /** `assertSha`: the lower-case form, or an error. */
  function CanonicalSha(s: string): Option<string> {
    if IsSha(s) then Some(Lower(s)) else None
  }

  lemma {:induction false} LowerIsStable(s: string)
    ensures Lower(Lower(s)) == Lower(s)
    ensures IsSha(s) ==> IsSha(Lower(s)) && CanonicalSha(Lower(s)) == Some(Lower(s))
  {
    assert Lower(Lower(s)) == Lower(s);
  }

  /** `/^sha256:[a-f0-9]{64}$/i`. */
  predicate IsDigest(s: string) {
    |s| == 71 && Lower(s)[..7] == "sha256:" && IsHex(Lower(s)[7..])
  }

  lemma {:induction false} PrintedDigestIsDigest(hash: Hasher, text: string)
    ensures IsDigest(Sha256(hash, text)) && Sha256(hash, text)[7..] == hash(text)
  {
    var s, h := Sha256(hash, text), hash(text);
    assert s[7..] == h;
    forall i | 0 <= i < 64 ensures Lower(s)[7..][i] == h[i] && IsHexDigit(h[i]) {
      assert s[7..][i] == s[i + 7];
      assert LowerChar(h[i]) == h[i];
    }
    assert Lower(s)[..7] == "sha256:";
  }

  predicate IsNameChar(c: char) {
    || 'a' <= c <= 'z' || 'A' <= c <= 'Z' || '0' <= c <= '9'
    || c == '@' || c == '.' || c == '_' || c == '+' || c == '/' || c == '-'
  }

  /** `/^[a-z0-9@._+/-]+$/i`. */
  predicate IsSafeName(name: string) {
    name != "" && forall i :: 0 <= i < |name| ==> IsNameChar(name[i])
  }

  predicate HasDotDot(name: string) {
    exists i :: 0 <= i < |name| - 1 && name[i] == '.' && name[i + 1] == '.'
  }

  /** `assertSafeAsset`; a backslash is already outside the safe characters. */
  predicate IsSafeAsset(name: string) {
    IsSafeName(name) && !HasDotDot(name) && name[0] != '/'
  }

  /** The stricter test of asset lists: a safe name that is not a path. */
  predicate IsFlatAsset(name: string) {
    IsSafeName(name) && !HasDotDot(name) && '/' !in name
  }

  // ----- SHA256SUMS -------------------------------------------------------------------------

  datatype Sum = Sum(digest: string, name: string)

  /** White space that `String.prototype.trim` removes. */
  predicate IsSpace(c: char) {
    var n := c as int;
    9 <= n <= 13 || n == 32 || n == 0xA0 || n == 0x1680 || 0x2000 <= n <= 0x200A
    || n == 0x2028 || n == 0x2029 || n == 0x202F || n == 0x205F || n == 0x3000 || n == 0xFEFF
  }

  function TrimStart(s: string): string {
    if s != "" && IsSpace(s[0]) then TrimStart(s[1..]) else s
  }

  function TrimEnd(s: string): string {
    if s != "" && IsSpace(s[|s| - 1]) then TrimEnd(s[..|s| - 1]) else s
  }

  function Trim(s: string): string {
    TrimEnd(TrimStart(s))
  }

  /** `s.split(/\r?\n/)`. */
  function Lines(s: string): (r: seq<string>)
    ensures r != []
  {
    if s == "" then [""]
    else if s[0] == '\n' then [""] + Lines(s[1..])
    else if |s| > 1 && s[0] == '\r' && s[1] == '\n' then [""] + Lines(s[2..])
    else
      var rest := Lines(s[1..]);
      [[s[0]] + rest[0]] + rest[1..]
  }

  /** `/^([a-f0-9]{64})  (.+)$/` followed by the safe-name test. */
  function ParseSum(line: string): Option<Sum> {
    if |line| > 66 && IsHex(line[..64]) && line[64] == ' ' && line[65] == ' ' && IsSafeAsset(line[66..])
    then Some(Sum(line[..64], line[66..]))
    else None
  }

  function ParseLines(lines: seq<string>): Option<seq<Sum>> {
    if lines == [] then Some([])
    else
      match (ParseSum(lines[0]), ParseLines(lines[1..]))
      case (Some(first), Some(rest)) => Some([first] + rest)
      case _ => None
  }

  function ParseSums(text: string): Option<seq<Sum>> {
    ParseLines(Lines(Trim(text)))
  }

  function PrintSum(sum: Sum): string {
    sum.digest + "  " + sum.name
  }

  /** `sums.map(line).join("\n")`. */
  function Joined(sums: seq<Sum>): string {
    if sums == [] then ""
    else if |sums| == 1 then PrintSum(sums[0])
    else PrintSum(sums[0]) + "\n" + Joined(sums[1..])
  }

  /** The file as the bundle builder writes it: tarball lines, then the manifest's line. */
  function PrintSums(tarballs: seq<Sum>, manifest: Sum): string {
    Joined(tarballs) + "\n" + PrintSum(manifest) + "\n"
  }

  predicate Printable(sum: Sum) {
    IsHex64(sum.digest) && IsSafeAsset(sum.name)
  }

  predicate PlainEnds(s: string) {
    s != "" && !IsSpace(s[0]) && !IsSpace(s[|s| - 1])
  }

  lemma {:induction false} PrintedSum(sum: Sum)
    requires Printable(sum)
    ensures ParseSum(PrintSum(sum)) == Some(sum)
    ensures PlainEnds(PrintSum(sum))
    ensures '\n' !in PrintSum(sum) && '\r' !in PrintSum(sum)
  {
    var line := PrintSum(sum);
    assert line[..64] == sum.digest && line[66..] == sum.name;
    assert line[|line| - 1] == sum.name[|sum.name| - 1];
    assert line[0] == sum.digest[0];
    forall c | c in line ensures c != '\n' && c != '\r' {
      assert c in sum.digest || c == ' ' || c in sum.name;
    }
  }

  lemma {:induction false} FirstLine(line: string, rest: string)
    requires '\n' !in line && '\r' !in line
    ensures Lines(line + "\n" + rest) == [line] + Lines(rest)
  {
    var s := line + "\n" + rest;
    if line == "" {
      assert s[1..] == rest;
    } else {
      assert s[1..] == line[1..] + "\n" + rest;
      assert s[0] == line[0];
      FirstLine(line[1..], rest);
      assert line == [line[0]] + line[1..];
    }
  }

  lemma {:induction false} OnlyLine(line: string)
    requires '\n' !in line && '\r' !in line
    ensures Lines(line) == [line]
  {
    if line != "" {
      OnlyLine(line[1..]);
      assert line == [line[0]] + line[1..];
    }
  }

  lemma {:induction false} JoinedEnds(sums: seq<Sum>)
    requires sums != [] && forall s :: s in sums ==> Printable(s)
    ensures PlainEnds(Joined(sums))
  {
    PrintedSum(sums[0]);
    if |sums| > 1 {
      JoinedEnds(sums[1..]);
    }
  }

  lemma {:induction false} JoinedLines(sums: seq<Sum>)
    requires sums != [] && forall s :: s in sums ==> Printable(s)
    ensures ParseLines(Lines(Joined(sums))) == Some(sums)
  {
    PrintedSum(sums[0]);
    var line := PrintSum(sums[0]);
    if |sums| == 1 {
      OnlyLine(line);
      ParseOneMore(sums[0], []);
      assert [line] + [] == [line] && [sums[0]] + [] == sums;
    } else {
      var rest := sums[1..];
      JoinedLines(rest);
      FirstLine(line, Joined(rest));
      ParseOneMore(sums[0], Lines(Joined(rest)));
      assert sums == [sums[0]] + rest;
    }
  }

  lemma {:induction false} ParseOneMore(sum: Sum, lines: seq<string>)
    requires ParseSum(PrintSum(sum)) == Some(sum) && ParseLines(lines).Some?
    ensures ParseLines([PrintSum(sum)] + lines) == Some([sum] + ParseLines(lines).value)
  {
    assert ([PrintSum(sum)] + lines)[1..] == lines;
  }

  lemma {:induction false} TrimPlain(s: string)
    requires PlainEnds(s)
    ensures Trim(s + "\n") == s && Trim("\n" + (s + "\n")) == s
  {
    var t := s + "\n";
    assert t[0] == s[0] && t[..|t| - 1] == s;
    assert TrimEnd(t) == TrimEnd(s) == s;
    assert ("\n" + t)[1..] == t;
    assert TrimStart("\n" + t) == TrimStart(t) == t;
  }

  lemma {:induction false} JoinAppend(sums: seq<Sum>, last: Sum)
    ensures sums != [] ==> Joined(sums + [last]) == Joined(sums) + "\n" + PrintSum(last)
  {
    if |sums| > 1 {
      JoinAppend(sums[1..], last);
      assert (sums + [last])[1..] == sums[1..] + [last];
      var head, mid := PrintSum(sums[0]) + "\n", Joined(sums[1..]);
      Regroup(head, mid, "\n");
      Regroup(head, mid + "\n", PrintSum(last));
    } else if |sums| == 1 {
      assert (sums + [last])[1..] == [last];
    }
  }

  /** Reading a written SHA256SUMS file gives back every line, with or without tarballs. */
  lemma {:induction false} SumsRoundTrip(tarballs: seq<Sum>, manifest: Sum)
    requires Printable(manifest) && forall s :: s in tarballs ==> Printable(s)
    ensures ParseSums(PrintSums(tarballs, manifest)) == Some(tarballs + [manifest])
  {
    var all := tarballs + [manifest];
    JoinedLines(all);
    JoinedEnds(all);
    TrimPlain(Joined(all));
    if tarballs == [] {
      assert all == [manifest] && Joined(tarballs) == "";
      assert PrintSums(tarballs, manifest) == "\n" + (PrintSum(manifest) + "\n");
    } else {
      JoinAppend(tarballs, manifest);
      assert PrintSums(tarballs, manifest) == Joined(all) + "\n";
    }
  }

  // ----- Which texts are sums files ----------------------------------------------------------

  predicate AllSpace(s: string) {
    forall i :: 0 <= i < |s| ==> IsSpace(s[i])
  }

  predicate AreBreaks(breaks: seq<string>) {
    forall i :: 0 <= i < |breaks| ==> breaks[i] == "\n" || breaks[i] == "\r\n"
  }

  /** Lines with a break between each two. */
  function Weave(lines: seq<string>, breaks: seq<string>): string
    requires |lines| == |breaks| + 1
  {
    if breaks == [] then lines[0] else lines[0] + breaks[0] + Weave(lines[1..], breaks[1..])
  }

  lemma {:induction false} WeaveFirst(line: string, end: string, lines: seq<string>, breaks: seq<string>)
    requires |lines| == |breaks| + 1
    ensures Weave([line] + lines, [end] + breaks) == line + end + Weave(lines, breaks)
  {
    assert ([line] + lines)[1..] == lines && ([end] + breaks)[1..] == breaks;
  }

  lemma {:induction false} WeaveLonger(c: char, lines: seq<string>, breaks: seq<string>)
    requires |lines| == |breaks| + 1
    ensures Weave([[c] + lines[0]] + lines[1..], breaks) == [c] + Weave(lines, breaks)
  {
    var longer := [[c] + lines[0]] + lines[1..];
    assert longer[1..] == lines[1..];
    if breaks != [] {
      Regroup([c], lines[0], breaks[0]);
      Regroup([c], lines[0] + breaks[0], Weave(lines[1..], breaks[1..]));
    }
  }

  lemma {:induction false} LinesAreWoven(s: string) returns (breaks: seq<string>)
    ensures AreBreaks(breaks) && |Lines(s)| == |breaks| + 1 && s == Weave(Lines(s), breaks)
    decreases |s|
  {
    breaks := [];
    if s == "" {
    } else if s[0] == '\n' {
      breaks := LinesAreWoven(s[1..]);
      WeaveFirst("", "\n", Lines(s[1..]), breaks);
      breaks := ["\n"] + breaks;
      assert s == "" + "\n" + s[1..];
    } else if |s| > 1 && s[0] == '\r' && s[1] == '\n' {
      breaks := LinesAreWoven(s[2..]);
      WeaveFirst("", "\r\n", Lines(s[2..]), breaks);
      breaks := ["\r\n"] + breaks;
      assert s == "" + "\r\n" + s[2..];
    } else {
      breaks := LinesAreWoven(s[1..]);
      WeaveLonger(s[0], Lines(s[1..]), breaks);
      assert s == [s[0]] + s[1..];
    }
  }

  predicate IsPlainLine(line: string) {
    '\n' !in line && '\r' !in line
  }

  lemma {:induction false} FirstLineOfTwo(line: string, rest: string)
    requires IsPlainLine(line)
    ensures Lines(line + "\r\n" + rest) == [line] + Lines(rest)
  {
    var s := line + "\r\n" + rest;
    if line == "" {
      assert s[2..] == rest;
    } else {
      assert s[1..] == line[1..] + "\r\n" + rest;
      assert s[0] == line[0];
      FirstLineOfTwo(line[1..], rest);
      assert line == [line[0]] + line[1..];
    }
  }

  lemma {:induction false} WovenLines(lines: seq<string>, breaks: seq<string>)
    requires |lines| == |breaks| + 1 && AreBreaks(breaks) && forall i :: 0 <= i < |lines| ==> IsPlainLine(lines[i])
    ensures Lines(Weave(lines, breaks)) == lines
    decreases |lines|
  {
    if breaks == [] {
      OnlyLine(lines[0]);
    } else {
      WovenLines(lines[1..], breaks[1..]);
      if breaks[0] == "\n" {
        FirstLine(lines[0], Weave(lines[1..], breaks[1..]));
      } else {
        FirstLineOfTwo(lines[0], Weave(lines[1..], breaks[1..]));
      }
    }
  }

  function Printed(sums: seq<Sum>): (lines: seq<string>)
    ensures |lines| == |sums|
  {
    seq(|sums|, i requires 0 <= i < |sums| => PrintSum(sums[i]))
  }

  lemma {:induction false} ParsedSum(line: string, sum: Sum)
    ensures ParseSum(line) == Some(sum) <==> Printable(sum) && line == PrintSum(sum)
  {
    if ParseSum(line) == Some(sum) {
      assert line == line[..64] + [line[64]] + [line[65]] + line[66..];
    }
    if Printable(sum) {
      PrintedSum(sum);
    }
  }

  lemma {:induction false} ParsedLines(lines: seq<string>, sums: seq<Sum>)
    ensures ParseLines(lines) == Some(sums)
      <==> lines == Printed(sums) && forall i :: 0 <= i < |sums| ==> Printable(sums[i])
    decreases |lines|
  {
    if lines != [] && sums != [] {
      ParsedSum(lines[0], sums[0]);
      ParsedLines(lines[1..], sums[1..]);
      assert Printed(sums)[1..] == Printed(sums[1..]);
      assert lines == [lines[0]] + lines[1..] && sums == [sums[0]] + sums[1..];
      assert Printed(sums) == [PrintSum(sums[0])] + Printed(sums)[1..];
    }
  }

  lemma {:induction false} TrimmedParts(s: string) returns (before: string, after: string)
    ensures AllSpace(before) && AllSpace(after) && s == before + Trim(s) + after
  {
    before := LeadingSpace(s);
    var rest := TrimStart(s);
    after := TrailingSpace(rest);
  }

  lemma {:induction false} LeadingSpace(s: string) returns (before: string)
    ensures AllSpace(before) && s == before + TrimStart(s)
    decreases |s|
  {
    before := "";
    if s != "" && IsSpace(s[0]) {
      before := LeadingSpace(s[1..]);
      Regroup([s[0]], before, TrimStart(s));
      assert s == [s[0]] + s[1..];
      before := [s[0]] + before;
    }
  }

  lemma {:induction false} TrailingSpace(s: string) returns (after: string)
    ensures AllSpace(after) && s == TrimEnd(s) + after
    decreases |s|
  {
    after := "";
    if s != "" && IsSpace(s[|s| - 1]) {
      var front := s[..|s| - 1];
      after := TrailingSpace(front);
      Regroup(TrimEnd(s), after, [s[|s| - 1]]);
      assert s == front + [s[|s| - 1]];
      after := after + [s[|s| - 1]];
    }
  }

  lemma {:induction false} TrimsTo(before: string, text: string, after: string)
    requires AllSpace(before) && AllSpace(after) && PlainEnds(text)
    ensures Trim(before + text + after) == text
    decreases |before| + |after|
  {
    var whole := before + text + after;
    if before != "" {
      assert whole[1..] == before[1..] + text + after;
      TrimsTo(before[1..], text, after);
    } else {
      assert whole == text + after && TrimStart(whole) == whole;
      EndsAt(text, after);
    }
  }

  lemma {:induction false} EndsAt(text: string, after: string)
    requires AllSpace(after) && PlainEnds(text)
    ensures TrimEnd(text + after) == text
    decreases |after|
  {
    var whole := text + after;
    if after == "" {
      assert whole == text;
    } else {
      assert whole[..|whole| - 1] == text + after[..|after| - 1];
      EndsAt(text, after[..|after| - 1]);
    }
  }

  lemma {:induction false} WovenEnds(lines: seq<string>, breaks: seq<string>)
    requires |lines| == |breaks| + 1 && forall i :: 0 <= i < |lines| ==> PlainEnds(lines[i])
    ensures PlainEnds(Weave(lines, breaks))
    decreases |lines|
  {
    if breaks != [] {
      WovenEnds(lines[1..], breaks[1..]);
    }
  }

  /** The text is these lines with breaks between them and white space around them. */
  ghost predicate Spells(text: string, lines: seq<string>) {
    exists before: string, breaks: seq<string>, after: string ::
      && AllSpace(before) && AllSpace(after) && AreBreaks(breaks) && |lines| == |breaks| + 1
      && text == before + Weave(lines, breaks) + after
  }

  /**
   A text reads as these sums exactly when it is their lines, each a digest of 64 hexadecimal digits, two spaces and a
   safe name, with line breaks between them and nothing but white space around them.
   */
  lemma {:induction false} SumsReadExactly(text: string, sums: seq<Sum>)
    ensures ParseSums(text) == Some(sums)
      <==> Spells(text, Printed(sums)) && forall i :: 0 <= i < |sums| ==> Printable(sums[i])
  {
    ParsedLines(Lines(Trim(text)), sums);
    if ParseSums(text) == Some(sums) {
      var before, after := TrimmedParts(text);
      var breaks := LinesAreWoven(Trim(text));
      assert text == before + Weave(Printed(sums), breaks) + after;
    }
    if Spells(text, Printed(sums)) && forall i :: 0 <= i < |sums| ==> Printable(sums[i]) {
      var before: string, breaks: seq<string>, after: string :|
        && AllSpace(before) && AllSpace(after) && AreBreaks(breaks) && |Printed(sums)| == |breaks| + 1
        && text == before + Weave(Printed(sums), breaks) + after;
      forall i | 0 <= i < |sums| ensures PlainEnds(Printed(sums)[i]) && IsPlainLine(Printed(sums)[i]) {
        PrintedSum(sums[i]);
      }
      WovenEnds(Printed(sums), breaks);
      TrimsTo(before, Weave(Printed(sums), breaks), after);
      WovenLines(Printed(sums), breaks);
    }
  }
}
