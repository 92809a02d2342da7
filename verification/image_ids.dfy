/**
 * Allocation of sequential image file names in a collection directory.
 *
 * `next_image_id` reads a directory listing, takes every name that starts with
 * one or more decimal digits followed by `.png` (a match anchored at the start
 * only, case-sensitive), and returns one more than the largest number found.
 * Callers turn the id into a name with the format `{:05d}.png`.
 * The listing is an input sequence; digits are ASCII.
 */
module ImageIds {
  import opened Wrappers

  predicate IsDigit(c: char) {
    '0' <= c <= '9'
  }

  predicate AllDigits(s: string) {
    forall i :: 0 <= i < |s| ==> IsDigit(s[i])
  }

  function DigitValue(c: char): (d: nat)
    requires IsDigit(c)
    ensures d < 10
  {
    c as int - '0' as int
  }

  function DigitChar(d: nat): (c: char)
    requires d < 10
    ensures IsDigit(c) && DigitValue(c) == d
  {
    ('0' as int + d) as char
  }

  /** The number a run of decimal digits denotes, leading zeros allowed (Python's `int`). */
  function ParseDecimal(s: string): nat
    requires AllDigits(s)
  {
    if s == [] then 0 else 10 * ParseDecimal(s[..|s| - 1]) + DigitValue(s[|s| - 1])
  }

  /** The shortest decimal numeral of `n`. */
  function ToDecimal(n: nat): string {
    if n < 10 then [DigitChar(n)] else ToDecimal(n / 10) + [DigitChar(n % 10)]
  }

  /** `ToDecimal` is a numeral of `n` without leading zeros. */
  lemma {:induction false} ToDecimalIsNumeral(n: nat)
    ensures var s := ToDecimal(n);
      && 1 <= |s| && AllDigits(s)
      && ParseDecimal(s) == n
      && (|s| == 1 <==> n < 10)
      && (|s| > 1 ==> s[0] != '0')
  {
    if n >= 10 {
      ToDecimalIsNumeral(n / 10);
      var p := ToDecimal(n / 10);
      var s := ToDecimal(n);
      assert s[..|s| - 1] == p;
    }
  }

  function Zeros(k: nat): (z: string)
    ensures |z| == k && AllDigits(z)
    ensures forall i :: 0 <= i < k ==> z[i] == '0'
  {
    seq(k, _ => '0')
  }

  lemma {:induction false} ParseZeros(k: nat)
    ensures ParseDecimal(Zeros(k)) == 0
  {
    if k > 0 {
      ParseZeros(k - 1);
      assert Zeros(k)[..k - 1] == Zeros(k - 1);
    }
  }

  /** Leading zeros do not change the value of a numeral. */
  lemma {:induction false} ParseLeadingZeros(k: nat, s: string)
    requires AllDigits(s)
    ensures AllDigits(Zeros(k) + s)
    ensures ParseDecimal(Zeros(k) + s) == ParseDecimal(s)
  {
    var z := Zeros(k) + s;
    if s == [] {
      assert z == Zeros(k);
      ParseZeros(k);
    } else {
      ParseLeadingZeros(k, s[..|s| - 1]);
      assert z[..|z| - 1] == Zeros(k) + s[..|s| - 1];
    }
  }

  /** The longest prefix of `s` made of digits (what the greedy `\d+` takes). */
  function LeadingDigits(s: string): (d: string)
    ensures |d| <= |s| && d == s[..|d|]
    ensures AllDigits(d)
    ensures |d| < |s| ==> !IsDigit(s[|d|])
  {
    if s != [] && IsDigit(s[0]) then [s[0]] + LeadingDigits(s[1..]) else []
  }

  const PngSuffix: string := ".png"

  /** `k` splits `name` into a non-empty digit run followed by `.png` (and any rest). */
  predicate DigitsThenPng(name: string, k: int) {
    0 < k && k + |PngSuffix| <= |name| && AllDigits(name[..k]) && name[k..k + |PngSuffix|] == PngSuffix
  }

  /** The pattern `(\d+)\.png` matches at the start of `name` (backtracking over the digit run allowed). */
  ghost predicate PatternMatches(name: string) {
    exists k :: DigitsThenPng(name, k)
  }

  /** `re.match(r'(\d+)\.png', name)`: the number in group 1, or None when there is no match. */
  function MatchImageId(name: string): Option<nat> {
    var d := LeadingDigits(name);
    if DigitsThenPng(name, |d|) then Some(ParseDecimal(d)) else None
  }

  /** MatchImageId is exactly the regular-expression match: it succeeds iff some split of the
      name into digits and `.png` exists, and then yields the value of those digits. */
  lemma MatchImageIdIsPatternMatch(name: string)
    ensures MatchImageId(name).Some? <==> PatternMatches(name)
    ensures forall k :: DigitsThenPng(name, k) ==> MatchImageId(name) == Some(ParseDecimal(name[..k]))
  {
    var d := LeadingDigits(name);
    forall k | DigitsThenPng(name, k)
      ensures MatchImageId(name) == Some(ParseDecimal(name[..k]))
    {
      forall i | 0 <= i < k
        ensures IsDigit(name[i])
      {
        assert name[..k][i] == name[i];
      }
      assert name[k] == '.';
      assert |d| == k;
    }
    if MatchImageId(name).Some? {
      assert DigitsThenPng(name, |d|);
    }
  }

  /** A name in upper case is not matched: the pattern is case-sensitive. */
  lemma UpperCaseIgnored()
    ensures MatchImageId("00001.PNG") == None
  {
    assert LeadingDigits("00001.PNG") == "00001";
    assert "00001.PNG"[5..9][1] == 'P';
  }

  /** A name not starting with a digit is not matched: the pattern is anchored at the start. */
  lemma LetterPrefixIgnored()
    ensures MatchImageId("a1.png") == None
  {
    assert LeadingDigits("a1.png") == "";
  }

  /** A name with text after `.png` is matched: the pattern need not reach the end. */
  lemma SuffixAfterPngCounted()
    ensures MatchImageId("7.png.bak") == Some(7)
  {
    assert LeadingDigits("7.png.bak") == "7";
  }

  /** `'{:05d}'.format(n)`: the decimal numeral of `n`, zero-padded on the left to width 5. */
  function FormatId(n: nat): string {
    PadLeft(ToDecimal(n), 5)
  }

  /** `d` with zeros put in front until it is `width` characters long. */
  function PadLeft(d: string, width: nat): string
    decreases width - |d|
  {
    if |d| >= width then d else PadLeft(['0'] + d, width)
  }

  /** Padding puts exactly the missing number of zeros in front, and nothing when none is missing. */
  lemma {:induction false} PadLeftIsZeros(d: string, width: nat)
    ensures |d| >= width ==> PadLeft(d, width) == d
    ensures |d| < width ==> PadLeft(d, width) == Zeros(width - |d|) + d
    decreases width - |d|
  {
    if |d| < width {
      PadLeftIsZeros(['0'] + d, width);
      var k := width - |d|;
      assert Zeros(k) == Zeros(k - 1) + ['0'];
      assert Zeros(k) + d == Zeros(k - 1) + (['0'] + d);
    }
  }

  /** The formatted id is a numeral of `n` at least five digits long, exactly five below
      100000, and without leading zeros when longer. */
  lemma FormatIdIsPadded(n: nat)
    ensures var s := FormatId(n);
      && |s| >= 5 && AllDigits(s)
      && ParseDecimal(s) == n
      && (|s| > 5 ==> s[0] != '0')
      && (n < 100000 ==> |s| == 5)
  {
    var d := ToDecimal(n);
    ToDecimalIsNumeral(n);
    ToDecimalLength(n);
    PadLeftIsZeros(d, 5);
    if |d| < 5 {
      ParseLeadingZeros(5 - |d|, d);
    }
  }

  lemma {:induction false} ToDecimalLength(n: nat)
    ensures n < 10 ==> |ToDecimal(n)| <= 1
    ensures n < 100 ==> |ToDecimal(n)| <= 2
    ensures n < 1000 ==> |ToDecimal(n)| <= 3
    ensures n < 10000 ==> |ToDecimal(n)| <= 4
    ensures n < 100000 ==> |ToDecimal(n)| <= 5
  {
    if n >= 10 {
      ToDecimalLength(n / 10);
    }
  }

  /** `'{:05d}.png'.format(n)`, the file name callers build from an allocated id. */
  function FormatImageName(n: nat): string {
    FormatId(n) + PngSuffix
  }

  /** Round trip: a formatted name is matched by the pattern and yields its id back. */
  lemma FormatImageNameRoundTrip(n: nat)
    ensures MatchImageId(FormatImageName(n)) == Some(n)
  {
    var name := FormatImageName(n);
    FormatIdIsPadded(n);
    var k := |FormatId(n)|;
    assert name[..k] == FormatId(n);
    assert name[k..k + |PngSuffix|] == PngSuffix;
    assert DigitsThenPng(name, k);
    MatchImageIdIsPatternMatch(name);
  }

  /** The accumulator of `next_image_id` after the first names of the listing: the largest
      matched number, or 0 when nothing matched. */
  function MaxImageId(listing: seq<string>): nat {
    if listing == [] then 0
    else
      var m := MaxImageId(listing[..|listing| - 1]);
      match MatchImageId(listing[|listing| - 1])
      case None => m
      case Some(k) => if k > m then k else m
  }

  /** The maximum is an upper bound of every matched number, and is attained unless it is 0. */
  lemma {:induction false} MaxImageIdIsMaximum(listing: seq<string>)
    ensures forall i :: 0 <= i < |listing| && MatchImageId(listing[i]).Some? ==>
              MatchImageId(listing[i]).value <= MaxImageId(listing)
    ensures MaxImageId(listing) == 0 ||
            exists i :: 0 <= i < |listing| && MatchImageId(listing[i]) == Some(MaxImageId(listing))
  {
    if listing != [] {
      var init := listing[..|listing| - 1];
      MaxImageIdIsMaximum(init);
      assert forall i :: 0 <= i < |init| ==> listing[i] == init[i];
      if MaxImageId(listing) != 0 && MaxImageId(listing) == MaxImageId(init) {
        var i :| 0 <= i < |init| && MatchImageId(init[i]) == Some(MaxImageId(init));
        assert listing[i] == init[i];
      }
    }
  }

  /** `next_image_id` over a listing: one more than the largest matched number. */
  method NextImageId(listing: seq<string>) returns (id: nat)
    ensures id == MaxImageId(listing) + 1
    ensures forall name :: name in listing && MatchImageId(name).Some? ==> MatchImageId(name).value < id
    ensures id == 1 || exists name :: name in listing && MatchImageId(name) == Some(id - 1)
  {
    var acc: nat := 0;
    for i := 0 to |listing|
      invariant acc == MaxImageId(listing[..i])
    {
      assert listing[..i + 1][..i] == listing[..i];
      var m := MatchImageId(listing[i]);
      if m.Some? {
        acc := if m.value > acc then m.value else acc;
      }
    }
    assert listing[..|listing|] == listing;
    MaxImageIdIsMaximum(listing);
    id := acc + 1;
  }

  /** With nothing matching (the empty listing included) the allocation is 1. */
  lemma NoMatchAllocatesOne(listing: seq<string>)
    requires forall i :: 0 <= i < |listing| ==> MatchImageId(listing[i]) == None
    ensures MaxImageId(listing) + 1 == 1
  {
    MaxImageIdIsMaximum(listing);
  }

  /** The allocation depends only on the names present, not on the listing order. */
  lemma OrderIndependent(a: seq<string>, b: seq<string>)
    requires multiset(a) == multiset(b)
    ensures MaxImageId(a) == MaxImageId(b)
  {
    AtMost(a, b);
    AtMost(b, a);
  }

  /** Every number attained in `a` is bounded by the maximum of `b` when `b` has the same names. */
  lemma AtMost(a: seq<string>, b: seq<string>)
    requires multiset(a) == multiset(b)
    ensures MaxImageId(a) <= MaxImageId(b)
  {
    MaxImageIdIsMaximum(a);
    MaxImageIdIsMaximum(b);
    if MaxImageId(a) != 0 {
      var i :| 0 <= i < |a| && MatchImageId(a[i]) == Some(MaxImageId(a));
      assert a[i] in multiset(a);
      assert a[i] in b;
      var j :| 0 <= j < |b| && b[j] == a[i];
    }
  }

  /** Appending one name to the listing folds it into the maximum. */
  lemma MaxImageIdAppend(listing: seq<string>, name: string)
    ensures MaxImageId(listing + [name]) ==
      match MatchImageId(name)
      case None => MaxImageId(listing)
      case Some(k) => if k > MaxImageId(listing) then k else MaxImageId(listing)
  {
    var l := listing + [name];
    assert l[..|l| - 1] == listing;
  }

  /** Appending a name whose number is above the maximum makes that number the maximum. */
  lemma AppendAboveMaximum(listing: seq<string>, name: string, k: nat)
    requires MatchImageId(name) == Some(k) && k > MaxImageId(listing)
    ensures MaxImageId(listing + [name]) == k
  {
    MaxImageIdAppend(listing, name);
  }

  /** Appending the file name of the allocated id makes the next allocation one higher. */
  lemma AllocateNext(listing: seq<string>)
    ensures MaxImageId(listing + [FormatImageName(MaxImageId(listing) + 1)]) == MaxImageId(listing) + 1
  {
    var m := MaxImageId(listing);
    FormatImageNameRoundTrip(m + 1);
    AppendAboveMaximum(listing, FormatImageName(m + 1), m + 1);
  }

  /** The file names of `count` consecutive ids starting at `first`. */
  function NamesFrom(first: nat, count: nat): (names: seq<string>)
    ensures |names| == count
    decreases count
  {
    if count == 0 then [] else [FormatImageName(first)] + NamesFrom(first + 1, count - 1)
  }

  /** The k-th of the consecutive names is the name of id `first + k`. */
  lemma {:induction false} NamesFromIndex(first: nat, count: nat, k: nat)
    requires k < count
    ensures NamesFrom(first, count)[k] == FormatImageName(first + k)
    decreases k
  {
    if k > 0 {
      NamesFromIndex(first + 1, count - 1, k - 1);
      assert NamesFrom(first, count)[k] == NamesFrom(first + 1, count - 1)[k - 1];
    }
  }

  /** The listing of a directory that started empty after `c` images were saved one after the
      other, each under the name `next_image_id` allocated from the listing as it was then. */
  function SequentialNames(c: nat): (names: seq<string>)
    ensures |names| == c
  {
    if c == 0 then []
    else
      var prev := SequentialNames(c - 1);
      prev + [FormatImageName(MaxImageId(prev) + 1)]
  }

  /** Allocating `c` times into an empty directory takes the names of ids 1, 2, .., c in turn
      and leaves `c` as the largest id. */
  lemma {:induction false} SequentialAllocation(c: nat)
    ensures MaxImageId(SequentialNames(c)) == c
    ensures forall i :: 0 <= i < c ==> SequentialNames(c)[i] == FormatImageName(i + 1)
  {
    if c > 0 {
      var prev := SequentialNames(c - 1);
      SequentialAllocation(c - 1);
      AllocateNext(prev);
      var names := SequentialNames(c);
      assert names == prev + [FormatImageName(c)];
      forall i | 0 <= i < c
        ensures names[i] == FormatImageName(i + 1)
      {
        if i < c - 1 {
          assert names[i] == prev[i];
        }
      }
    }
  }

  /** A listing holding exactly the names of ids 1..c, in that order, is what `c` allocations
      into an empty directory leave, and its largest id is `c`. */
  lemma SequentialListing(listing: seq<string>)
    requires forall i :: 0 <= i < |listing| ==> listing[i] == FormatImageName(i + 1)
    ensures listing == SequentialNames(|listing|)
    ensures MaxImageId(listing) == |listing|
  {
    SequentialAllocation(|listing|);
    assert listing == SequentialNames(|listing|);
  }

  lemma SmallName(k: nat, name: string)
    requires 1 <= k <= 9
    requires name == "0000" + [DigitChar(k)] + PngSuffix
    ensures FormatImageName(k) == name
  {
    assert ToDecimal(k) == [DigitChar(k)];
    PadLeftIsZeros([DigitChar(k)], 5);
    assert Zeros(4) == "0000";
  }

  /** After `00001.png` .. `00004.png` the next name is `00005.png`. */
  lemma FifthImageExample(listing: seq<string>)
    requires listing == ["00001.png", "00002.png", "00003.png", "00004.png"]
    ensures MaxImageId(listing) + 1 == 5
    ensures FormatImageName(MaxImageId(listing) + 1) == "00005.png"
  {
    SmallName(1, "00001.png");
    SmallName(2, "00002.png");
    SmallName(3, "00003.png");
    SmallName(4, "00004.png");
    SmallName(5, "00005.png");
    forall i | 0 <= i < |listing|
      ensures listing[i] == FormatImageName(i + 1)
    {
      if i == 0 {} else if i == 1 {} else if i == 2 {} else {}
    }
    SequentialListing(listing);
  }
}
