/** The string logic of scripts/increment-version.js: `incrementVersion`
    on a `major.minor.patch` string and the splice by which `updateChangelog`
    puts a new section heading in front of the first version section. File
    and process I/O are not modelled; the date is a parameter. */
module Version {

  // ---------------------------------------------------------------------
  // `split('.')` and its inverse

  /** `s.split('.')`: the text between dots, so at least one component. */
  function Split(s: string): (parts: seq<string>)
    ensures |parts| >= 1
    ensures forall k :: 0 <= k < |parts| ==> '.' !in parts[k]
    ensures Join(parts) == s
  {
    if s == [] then [""]
    else if s[0] == '.' then
      assert s == "." + s[1..];
      [""] + Split(s[1..])
    else
      var t := Split(s[1..]);
      assert Join([[s[0]] + t[0]] + t[1..]) == [s[0]] + Join(t) by {
        JoinHead(s[0], t);
      }
      [[s[0]] + t[0]] + t[1..]
  }

  /** The components glued back together with dots. */
  function Join(parts: seq<string>): string
    requires |parts| >= 1
  {
    if |parts| == 1 then parts[0] else parts[0] + "." + Join(parts[1..])
  }

  lemma JoinHead(c: char, t: seq<string>)
    requires |t| >= 1
    ensures Join([[c] + t[0]] + t[1..]) == [c] + Join(t)
  {
  }

  /** Splitting at the first dot: a dot-free head is the first component. */
  lemma {:induction false} SplitDot(a: string, rest: string)
    requires '.' !in a
    ensures Split(a + "." + rest) == [a] + Split(rest)
  {
    if a == [] {
      assert a + "." + rest == "." + rest;
      assert ("." + rest)[1..] == rest;
    } else {
      assert (a + "." + rest)[0] == a[0];
      assert (a + "." + rest)[1..] == a[1..] + "." + rest;
      SplitDot(a[1..], rest);
      assert [a[0]] + a[1..] == a;
    }
  }

  /** A dot-free string is a single component. */
  lemma SplitNoDot(a: string)
    requires '.' !in a
    ensures Split(a) == [a]
  {
  }

  /** Splitting undoes joining when no component holds a dot. */
  lemma {:induction false} SplitJoin(parts: seq<string>)
    requires |parts| >= 1
    requires forall k :: 0 <= k < |parts| ==> '.' !in parts[k]
    ensures Split(Join(parts)) == parts
    decreases |parts|
  {
    if |parts| == 1 {
      SplitNoDot(parts[0]);
    } else {
      SplitDot(parts[0], Join(parts[1..]));
      SplitJoin(parts[1..]);
    }
  }

  // ---------------------------------------------------------------------
  // `parseInt(_, 10)` on digit strings and number formatting

  predicate IsDigit(c: char) { '0' <= c <= '9' }

  /** A non-empty run of decimal digits (what `parseInt` reads in full). */
  predicate IsDigits(s: string) {
    |s| > 0 && forall k :: 0 <= k < |s| ==> IsDigit(s[k])
  }

  /** `parseInt(s, 10)` on a string of digits; a leading zero does not
      change the value read. */
  function ParseInt(s: string): (n: nat)
    requires forall k :: 0 <= k < |s| ==> IsDigit(s[k])
    ensures s != [] && s[0] == '0' ==> n == ParseInt(s[1..])
    decreases |s|
  {
    if s == [] then 0
    else
      assert IsDigit(s[|s| - 1]);
      assert |s| > 1 ==> s[1..][..|s| - 2] == s[..|s| - 1][1..];
      ParseInt(s[..|s| - 1]) * 10 + (s[|s| - 1] as int - '0' as int)
  }

  function DigitChar(d: nat): (c: char)
    requires d < 10
    ensures IsDigit(c) && c as int - '0' as int == d
  {
    ('0' as int + d) as char
  }

  /** Decimal rendering of a natural number, as a template literal does:
      digits only, and no leading zero unless the number is 0. */
  function NatToStr(n: nat): (s: string)
    ensures IsDigits(s)
    ensures '.' !in s
    ensures s[0] == '0' <==> n == 0
    ensures s[0] == '0' ==> s == "0"
  {
    if n < 10 then [DigitChar(n)] else NatToStr(n / 10) + [DigitChar(n % 10)]
  }

  /** Reading back a rendered number gives the number. */
  lemma {:induction false} ParseNatToStr(n: nat)
    ensures ParseInt(NatToStr(n)) == n
  {
    if n < 10 {
      assert NatToStr(n)[..0] == [];
    } else {
      var s := NatToStr(n);
      assert s[..|s| - 1] == NatToStr(n / 10);
      ParseNatToStr(n / 10);
    }
  }

  // ---------------------------------------------------------------------
  // incrementVersion

  /** The component `parseInt` reads is a digit string: the first for
      "major", the second for "minor", the third for "patch" and any other
      type. */
  predicate CanIncrement(version: string, kind: string) {
    var parts := Split(version);
    if kind == "major" then IsDigits(parts[0])
    else if kind == "minor" then |parts| >= 2 && IsDigits(parts[1])
    else |parts| >= 3 && IsDigits(parts[2])
  }

  /** `incrementVersion`: whatever the input, the new version has exactly
      three dot-separated components. */
  function IncrementVersion(version: string, kind: string): (r: string)
    requires CanIncrement(version, kind)
    ensures |Split(r)| == 3
  {
    var parts := Split(version);
    if kind == "major" then
      var m := NatToStr(ParseInt(parts[0]) + 1);
      MajorParts(m);
      m + ".0.0"
    else if kind == "minor" then
      var m := NatToStr(ParseInt(parts[1]) + 1);
      MinorParts(parts[0], m);
      parts[0] + "." + m + ".0"
    else
      var m := NatToStr(ParseInt(parts[2]) + 1);
      SplitThree(parts[0], parts[1], m);
      parts[0] + "." + parts[1] + "." + m
  }

  lemma SplitThree(a: string, b: string, c: string)
    requires '.' !in a && '.' !in b && '.' !in c
    ensures Split(a + "." + b + "." + c) == [a, b, c]
  {
    SplitDot(a, b + "." + c);
    SplitDot(b, c);
    SplitNoDot(c);
    calc {
      Split(a + "." + b + "." + c);
      { assert a + "." + b + "." + c == a + "." + (b + "." + c); }
      Split(a + "." + (b + "." + c));
      [a] + Split(b + "." + c);
      [a] + ([b] + [c]);
      [a, b, c];
    }
  }

  /** `c` is what the template literal renders for `parseInt(p, 10) + 1`:
      digits with no leading zero, reading back as the next number. */
  predicate Bumped(c: string, p: string)
    requires IsDigits(p)
  {
    && c == NatToStr(ParseInt(p) + 1) && IsDigits(c) && c[0] != '0'
    && ParseInt(c) == ParseInt(p) + 1
  }

  /** A bumped number renders as digits without a leading zero that read
      back as that number. */
  lemma BumpedDigits(p: string)
    requires IsDigits(p)
    ensures Bumped(NatToStr(ParseInt(p) + 1), p)
  {
    ParseNatToStr(ParseInt(p) + 1);
  }

  lemma MajorParts(m: string)
    requires '.' !in m
    ensures Split(m + ".0.0") == [m, "0", "0"]
  {
    assert m + ".0.0" == m + "." + "0" + "." + "0";
    SplitThree(m, "0", "0");
  }

  lemma MinorParts(p0: string, m: string)
    requires '.' !in p0 && '.' !in m
    ensures Split(p0 + "." + m + ".0") == [p0, m, "0"]
  {
    var head := p0 + "." + m;
    assert head + ".0" == head + "." + "0";
    SplitThree(p0, m, "0");
  }

  /** The new version always has exactly three components. "major" bumps
      the first and zeroes the rest; "minor" keeps the first verbatim, bumps
      the second and zeroes the third; "patch" and every other type keep the
      first two verbatim and bump the third. A bumped component is the
      decimal rendering of the next number: digits with no leading zero.
      Components past the third are dropped. */
  lemma IncrementVersionParts(version: string, kind: string)
    requires CanIncrement(version, kind)
    ensures var parts, out := Split(version), Split(IncrementVersion(version, kind));
      && |out| == 3
      && (kind == "major" ==> Bumped(out[0], parts[0]) && out[1] == "0" && out[2] == "0")
      && (kind == "minor" ==> out[0] == parts[0] && Bumped(out[1], parts[1]) && out[2] == "0")
      && (kind != "major" && kind != "minor" ==>
            out[0] == parts[0] && out[1] == parts[1] && Bumped(out[2], parts[2]))
  {
    var parts := Split(version);
    if kind == "major" {
      var m := NatToStr(ParseInt(parts[0]) + 1);
      BumpedDigits(parts[0]);
      MajorParts(m);
      assert Split(IncrementVersion(version, kind)) == [m, "0", "0"];
    } else if kind == "minor" {
      var m := NatToStr(ParseInt(parts[1]) + 1);
      BumpedDigits(parts[1]);
      MinorParts(parts[0], m);
      assert Split(IncrementVersion(version, kind)) == [parts[0], m, "0"];
    } else {
      var m := NatToStr(ParseInt(parts[2]) + 1);
      BumpedDigits(parts[2]);
      SplitThree(parts[0], parts[1], m);
      assert Split(IncrementVersion(version, kind)) == [parts[0], parts[1], m];
    }
  }

  // ---------------------------------------------------------------------
  // The changelog splice

  /** The text that opens every version section. */
  const SectionMarker: string := "## ["

  predicate OccursAt(s: string, pat: string, j: int) {
    0 <= j && j + |pat| <= |s| && s[j..j + |pat|] == pat
  }

  function IndexFrom(s: string, pat: string, i: nat): (r: int)
    ensures r == -1 || (i <= r && OccursAt(s, pat, r))
    ensures forall j :: i <= j && (r == -1 || j < r) ==> !OccursAt(s, pat, j)
    decreases |s| - i
  {
    if i + |pat| > |s| then -1
    else if s[i..i + |pat|] == pat then i
    else IndexFrom(s, pat, i + 1)
  }

  /** `String.prototype.indexOf`: the first position of `pat`, or -1. */
  function IndexOf(s: string, pat: string): (r: int)
    ensures r == -1 || OccursAt(s, pat, r)
    ensures forall j :: 0 <= j && (r == -1 || j < r) ==> !OccursAt(s, pat, j)
  {
    IndexFrom(s, pat, 0)
  }

  /** The first line of a new section: version and date. */
  function HeadingLine(version: string, today: string): string {
    "## [" + version + "] - " + today
  }

  /** The section skeleton for `version` dated `today` (YYYY-MM-DD). It
      opens with its first line, hence with the marker, and ends with a
      blank line, so the section it is put in front of starts on a line of
      its own. */
  function Heading(version: string, today: string): (h: string)
    ensures |h| > |HeadingLine(version, today)| && h[..|HeadingLine(version, today)|] == HeadingLine(version, today)
    ensures h[..4] == SectionMarker
    ensures h[|h| - 2..] == "\n\n"
  {
    HeadingLine(version, today) + "\n\n### Added\n- \n\n### Changed\n- \n\n### Fixed\n- \n\n"
  }

  /** The new changelog text: unchanged when there is no version section,
      otherwise one heading longer, with the first version section found at
      the same position, where it is now the new heading. */
  function InsertHeading(content: string, version: string, today: string): (r: string)
    ensures IndexOf(content, SectionMarker) == -1 ==> r == content
    ensures IndexOf(content, SectionMarker) != -1 ==>
      && |r| == |content| + |Heading(version, today)|
      && IndexOf(r, SectionMarker) == IndexOf(content, SectionMarker)
  {
    var pos := IndexOf(content, SectionMarker);
    if pos == -1 then content
    else
      SpliceFirstOccurrence(content, pos, Heading(version, today));
      content[..pos] + Heading(version, today) + content[pos..]
  }

  /** Text spliced in at a position before which the marker does not occur,
      and which itself opens with the marker, becomes the first occurrence. */
  lemma SpliceFirstOccurrence(content: string, pos: int, h: string)
    requires 0 <= pos <= |content| && |h| >= 4 && h[..4] == SectionMarker
    requires forall j :: 0 <= j < pos ==> !OccursAt(content, SectionMarker, j)
    ensures IndexOf(content[..pos] + h + content[pos..], SectionMarker) == pos
  {
    var r := content[..pos] + h + content[pos..];
    assert |SectionMarker| == 4;
    assert r[pos..pos + 4] == h[..4];
    assert OccursAt(r, SectionMarker, pos);
    forall j | 0 <= j < pos ensures !OccursAt(r, SectionMarker, j) {
      if j + 4 <= pos {
        assert r[j..j + 4] == content[j..j + 4];
        assert !OccursAt(content, SectionMarker, j);
      } else {
        // A marker straddling the splice point would have to continue with
        // the "##" the spliced text opens with; its own letters differ.
        var w := r[j..j + 4];
        assert SectionMarker == ['#', '#', ' ', '['];
        assert r[pos] == h[0] == '#' && r[pos + 1] == h[1] == '#';
        if j == pos - 1 {
          assert w[2] == r[pos + 1];
          assert w[2] != SectionMarker[2];
        } else {
          assert w[pos - j] == r[pos];
          assert w[pos - j] != SectionMarker[pos - j];
        }
        assert w != SectionMarker;
      }
    }
  }

  /** Without a version section the text is unchanged. Otherwise the text
      is split at the first "## [" and the heading goes in between; cutting
      the heading back out gives the original text, and the new heading is
      now the first version section. */
  lemma InsertHeadingSplice(content: string, version: string, today: string)
    ensures IndexOf(content, SectionMarker) == -1 ==> InsertHeading(content, version, today) == content
    ensures var pos, h, r := IndexOf(content, SectionMarker), Heading(version, today),
                             InsertHeading(content, version, today);
      pos != -1 ==>
        && r == content[..pos] + h + content[pos..]
        && (forall j :: 0 <= j < pos ==> !OccursAt(content, SectionMarker, j))
        && r[pos..pos + |h|] == h
        && r[..pos] + r[pos + |h|..] == content
        && IndexOf(r, SectionMarker) == pos
  {
  }
}
