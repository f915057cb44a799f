/** Which of two release tags is newer. */
module Versions {
  import opened Wrappers
  import opened Text

  datatype Version = Version(major: nat, minor: nat, patch: nat)

  /** An unsigned 32-bit numeral: an optional plus sign and at least one digit. */
  function ParseU32(s: string): Option<nat> {
    var digits := if s != "" && s[0] == '+' then s[1..] else s;
    if AllDigits(digits) && Numeral(digits) < U32 then Some(Numeral(digits)) else None
  }

  /** The pieces that are numerals; the others are skipped. */
  function Numerals(parts: seq<string>): seq<nat> {
    if parts == [] then []
    else
      var rest := Numerals(parts[1..]);
      if ParseU32(parts[0]).Some? then [ParseU32(parts[0]).value] + rest else rest
  }

  function Parse(s: string): Version {
    var ns := Numerals(Split(if s != "" && s[0] == 'v' then s[1..] else s, '.'));
    Version(if |ns| > 0 then ns[0] else 0, if |ns| > 1 then ns[1] else 0, if |ns| > 2 then ns[2] else 0)
  }

  /** Lexicographic order on triples. */
  predicate Less(a: Version, b: Version) {
    || a.major < b.major
    || (a.major == b.major && a.minor < b.minor)
    || (a.major == b.major && a.minor == b.minor && a.patch < b.patch)
  }

  predicate IsNewer(current: string, latest: string) {
    Less(Parse(current), Parse(latest))
  }

  function Print(v: Version, prefixed: bool): string {
    Dotted(prefixed, Decimal(v.major), Decimal(v.minor), Decimal(v.patch))
  }

  predicate Representable(v: Version) { v.major < U32 && v.minor < U32 && v.patch < U32 }

  lemma ParseDecimal(n: nat)
    requires n < U32
    ensures ParseU32(Decimal(n)) == Some(n) && '.' !in Decimal(n) && 'v' !in Decimal(n)
  {
    NumeralOfDecimal(n);
    assert IsDigit(Decimal(n)[0]);
  }

  lemma DecimalIsNumeral(n: nat)
    ensures AllDigits(Decimal(n)) && Decimal(n)[0] != '+'
  {
    assert IsDigit(Decimal(n)[0]);
  }

  /** A number is a piece exactly up to 32 bits; a larger one is skipped like any other text. */
  lemma NumeralsAre32Bit(n: nat)
    ensures ParseU32(Decimal(n)) == if n < 0x1_0000_0000 then Some(n) else None
    ensures ParseU32("+" + Decimal(n)) == ParseU32(Decimal(n))
  {
    DecimalIsNumeral(n);
    NumeralOfDecimal(n);
    assert ("+" + Decimal(n))[1..] == Decimal(n);
  }

  /** An optional v, two dot-free pieces and whatever follows the second dot. */
  function Dotted(prefixed: bool, a: string, b: string, tail: string): string {
    (if prefixed then "v" else "") + (a + "." + (b + "." + tail))
  }

  lemma PiecesOf(prefixed: bool, a: string, b: string, tail: string)
    requires '.' !in a && '.' !in b && a != "" && a[0] != 'v'
    ensures var s := Dotted(prefixed, a, b, tail);
      Split(if s != "" && s[0] == 'v' then s[1..] else s, '.') == [a, b] + Split(tail, '.')
  {
    var plain := a + "." + (b + "." + tail);
    SplitFirst(a, '.', b + "." + tail);
    SplitFirst(b, '.', tail);
    assert [a] + ([b] + Split(tail, '.')) == [a, b] + Split(tail, '.');
    assert plain[0] == a[0];
    if prefixed {
      assert ("v" + plain)[1..] == plain;
    } else {
      assert "" + plain == plain;
    }
  }

  /** The first piece that is a numeral. */
  function FirstNumeral(parts: seq<string>): Option<nat> {
    if parts == [] then None
    else if ParseU32(parts[0]).Some? then ParseU32(parts[0])
    else FirstNumeral(parts[1..])
  }

  lemma {:induction false} FirstNumeralLeads(parts: seq<string>)
    ensures var ns := Numerals(parts);
      FirstNumeral(parts) == if ns == [] then None else Some(ns[0])
  {
    if parts != [] {
      FirstNumeralLeads(parts[1..]);
    }
  }

  lemma NumeralsAfterTwo(a: string, b: string, rest: seq<string>)
    requires ParseU32(a).Some? && ParseU32(b).Some?
    ensures Numerals([a, b] + rest) == [ParseU32(a).value, ParseU32(b).value] + Numerals(rest)
  {
    assert ([a, b] + rest)[1..] == [b] + rest && ([b] + rest)[1..] == rest;
    assert Numerals([b] + rest) == [ParseU32(b).value] + Numerals(rest);
  }

  /** The patch that is compared, whatever follows the minor: its first numeral piece, or zero. */
  function PatchOf(tail: string): nat {
    var first := FirstNumeral(Split(tail, '.'));
    if first.Some? then first.value else 0
  }

  /** Any text after the minor: pieces that are not numerals are skipped, wherever they stand. */
  lemma ParseDotted(prefixed: bool, major: nat, minor: nat, tail: string)
    requires major < U32 && minor < U32
    ensures Parse(Dotted(prefixed, Decimal(major), Decimal(minor), tail)) == Version(major, minor, PatchOf(tail))
  {
    var a, b := Decimal(major), Decimal(minor);
    ParseDecimal(major);
    ParseDecimal(minor);
    assert a[0] in a;
    PiecesOf(prefixed, a, b, tail);
    NumeralsAfterTwo(a, b, Split(tail, '.'));
    FirstNumeralLeads(Split(tail, '.'));
  }

  /** Parts that are missing count as zero. */
  lemma MissingPartsAreZero(major: nat, minor: nat)
    requires major < U32 && minor < U32
    ensures Parse(Decimal(major)) == Version(major, 0, 0)
    ensures Parse(Decimal(major) + "." + Decimal(minor)) == Version(major, minor, 0)
  {
    var a, b := Decimal(major), Decimal(minor);
    ParseDecimal(major);
    ParseDecimal(minor);
    assert a[0] in a && (a + "." + b)[0] == a[0];
    SplitPlain(a, '.');
    SplitPlain(b, '.');
    SplitFirst(a, '.', b);
    NumeralsAfterTwo(a, b, []);
    assert [a, b] + [] == [a] + [b] && [a][1..] == [];
    assert Numerals([a]) == [major];
  }

  lemma {:induction false} NoNumerals(parts: seq<string>)
    requires forall p <- parts :: ParseU32(p).None?
    ensures Numerals(parts) == []
  {
    if parts != [] {
      assert parts[0] in parts && forall p <- parts[1..] :: p in parts;
      NoNumerals(parts[1..]);
    }
  }

  /** Text without any numeral piece is oldest: no printed version is older, and all but 0.0.0 are newer. */
  lemma TextIsOldest(s: string, v: Version, prefixed: bool)
    requires forall p <- Split(if s != "" && s[0] == 'v' then s[1..] else s, '.') :: ParseU32(p).None?
    requires Representable(v)
    ensures !IsNewer(Print(v, prefixed), s)
    ensures IsNewer(s, Print(v, prefixed)) <==> v != Version(0, 0, 0)
  {
    NoNumerals(Split(if s != "" && s[0] == 'v' then s[1..] else s, '.'));
    PrintParses(v, prefixed);
  }

  lemma PatchOfDecimal(n: nat)
    requires n < U32
    ensures PatchOf(Decimal(n)) == n
  {
    ParseDecimal(n);
    SplitPlain(Decimal(n), '.');
  }

  lemma PrintParses(v: Version, prefixed: bool)
    requires Representable(v)
    ensures Parse(Print(v, prefixed)) == v
  {
    ParseDotted(prefixed, v.major, v.minor, Decimal(v.patch));
    PatchOfDecimal(v.patch);
  }

  /**
   On printed versions, with or without the leading v, the comparison is the order of section 11
   of Semantic Versioning 2.0.0 on core versions.
   */
  lemma NewerIffGreater(a: Version, b: Version, va: bool, vb: bool)
    requires Representable(a) && Representable(b)
    ensures IsNewer(Print(a, va), Print(b, vb)) <==> Less(a, b)
  {
    PrintParses(a, va);
    PrintParses(b, vb);
  }

  /** The k-th piece is the first numeral among them. */
  ghost predicate LeadsAt(parts: seq<string>, k: nat) {
    k < |parts| && ParseU32(parts[k]).Some? && forall j :: 0 <= j < k ==> ParseU32(parts[j]).None?
  }

  lemma {:induction false} FirstNumeralIsLed(parts: seq<string>, n: nat)
    ensures FirstNumeral(parts) == Some(n) <==>
      exists k: nat :: LeadsAt(parts, k) && ParseU32(parts[k]) == Some(n)
  {
    if parts != [] {
      FirstNumeralIsLed(parts[1..], n);
      if ParseU32(parts[0]).Some? {
        assert LeadsAt(parts, 0);
      } else {
        if k: nat :| LeadsAt(parts, k) && ParseU32(parts[k]) == Some(n) {
          assert LeadsAt(parts[1..], k - 1);
        }
        if k: nat :| LeadsAt(parts[1..], k) && ParseU32(parts[1..][k]) == Some(n) {
          assert forall j :: 0 < j < k + 1 ==> parts[j] == parts[1..][j - 1];
          assert LeadsAt(parts, k + 1);
        }
      }
    }
  }

  /**
   Against a printed version with the same major and minor, a release is newer exactly when the
   first numeral piece after its minor exists and exceeds the patch. Suffixes have no other effect.
   */
  lemma FirstNumeralDecides(v: Version, tail: string, pv: bool, pl: bool)
    requires Representable(v)
    ensures IsNewer(Print(v, pv), Dotted(pl, Decimal(v.major), Decimal(v.minor), tail)) <==>
      exists k: nat :: LeadsAt(Split(tail, '.'), k) && ParseU32(Split(tail, '.')[k]).value > v.patch
  {
    var parts := Split(tail, '.');
    PrintParses(v, pv);
    ParseDotted(pl, v.major, v.minor, tail);
    forall k: nat | LeadsAt(parts, k) ensures ParseU32(parts[k]) == Some(PatchOf(tail)) {
      FirstNumeralIsLed(parts, ParseU32(parts[k]).value);
    }
    assert IsNewer(Print(v, pv), Dotted(pl, Decimal(v.major), Decimal(v.minor), tail)) <==> PatchOf(tail) > v.patch;
    if PatchOf(tail) > v.patch {
      FirstNumeralIsLed(parts, PatchOf(tail));
      var k: nat :| LeadsAt(parts, k) && ParseU32(parts[k]) == Some(PatchOf(tail));
      assert LeadsAt(Split(tail, '.'), k) && ParseU32(Split(tail, '.')[k]).value > v.patch;
    }
  }

  /** An undotted suffix hides the patch: 1.2.9-rc is not newer than 1.2.0. */
  lemma UndottedSuffixHidesPatch(v: Version, patch: string, pv: bool, pl: bool)
    requires Representable(v) && '.' !in patch && ParseU32(patch).None?
    ensures !IsNewer(Print(v, pv), Dotted(pl, Decimal(v.major), Decimal(v.minor), patch))
  {
    SplitPlain(patch, '.');
    FirstNumeralDecides(v, patch, pv, pl);
  }

  /** A dotted pre-release is compared by its own number: 1.2.3-rc.1 reads as 1.2.1, older than 1.2.2. */
  lemma DottedSuffixReplacesPatch(v: Version, patch: string, k: nat, pv: bool, pl: bool)
    requires Representable(v) && '.' !in patch && ParseU32(patch).None? && k < U32
    ensures IsNewer(Print(v, pv), Dotted(pl, Decimal(v.major), Decimal(v.minor), patch + "." + Decimal(k)))
       <==> k > v.patch
  {
    ParseDecimal(k);
    SplitFirst(patch, '.', Decimal(k));
    SplitPlain(Decimal(k), '.');
    var tail := patch + "." + Decimal(k);
    var parts := Split(tail, '.');
    assert parts == [patch, Decimal(k)] && LeadsAt(parts, 1);
    FirstNumeralDecides(v, tail, pv, pl);
    assert forall j: nat :: LeadsAt(parts, j) ==> j == 1;
  }

  /** The release candidate of 1.2.3 is newer than 1.2.0 and not newer than 1.2.2. */
  lemma CandidateOfPatchThree()
    ensures IsNewer("1.2.0", "1.2.3-rc.1") && !IsNewer("1.2.2", "1.2.3-rc.1")
  {
    assert '-' in "3-rc" && !IsDigit('-');
    assert Decimal(0) == "0" && Decimal(1) == "1" && Decimal(2) == "2";
    assert "3-rc" + "." + "1" == "3-rc.1";
    assert Dotted(false, "1", "2", "3-rc.1") == "1.2.3-rc.1";
    assert Print(Version(1, 2, 0), false) == "1.2.0" && Print(Version(1, 2, 2), false) == "1.2.2";
    DottedSuffixReplacesPatch(Version(1, 2, 0), "3-rc", 1, false, false);
    DottedSuffixReplacesPatch(Version(1, 2, 2), "3-rc", 1, false, false);
  }

  /** The order on triples is strict and total. */
  lemma TriplesAreOrdered(a: Version, b: Version, c: Version)
    ensures !Less(a, a)
    ensures Less(a, b) && Less(b, c) ==> Less(a, c)
    ensures Less(a, b) || Less(b, a) || a == b
  {
  }

  /** So on arbitrary strings two releases tie exactly when they parse alike, and the rest is strictly ordered. */
  lemma StrictWeakOrder(a: string, b: string, c: string)
    ensures !IsNewer(a, a)
    ensures IsNewer(a, b) && IsNewer(b, c) ==> IsNewer(a, c)
    ensures IsNewer(a, c) ==> IsNewer(a, b) || IsNewer(b, c)
    ensures !IsNewer(a, b) && !IsNewer(b, a) <==> Parse(a) == Parse(b)
  {
    TriplesAreOrdered(Parse(a), Parse(b), Parse(c));
  }
}
