/**
 * The spoken prompts of `readPageTitle` (src/main.js:406-414) and
 * `readPageSummary` (src/main.js:419-424), with the decimal rendering that a
 * JavaScript template literal gives a non-negative integer.
 */
module Messages {
  import opened Wrappers

  const TitlePrefix := "The title of the page is "
  const NoTitleMessage := "This page does not have a title"

  /** `readPageTitle`: the title is announced when it is truthy, that is present and non-empty. */
  function TitleMessage(title: Option<string>): string
  {
    if title.Some? && title.value != "" then TitlePrefix + title.value else NoTitleMessage
  }

  /**
   * A missing or empty title gives the no-title prompt; any other title gives
   * a different prompt, from which the title can be read back.
   */
  lemma TitleMessageNamesTitle(t1: string, t2: string)
    ensures TitleMessage(None) == TitleMessage(Some("")) == NoTitleMessage
    ensures t1 != "" ==> TitleMessage(Some(t1)) != NoTitleMessage
    ensures t1 != "" && t2 != "" ==> (TitleMessage(Some(t1)) == TitleMessage(Some(t2)) <==> t1 == t2)
  {
    if t1 != "" {
      assert TitleMessage(Some(t1))[2] == 'e' != NoTitleMessage[2];
      assert TitleMessage(Some(t1))[|TitlePrefix|..] == t1;
    }
    if t2 != "" {
      assert TitleMessage(Some(t2))[|TitlePrefix|..] == t2;
    }
  }

  predicate IsDigit(c: char) { '0' <= c <= '9' }

  function DigitChar(d: nat): (c: char)
    requires d < 10
    ensures IsDigit(c)
  {
    "0123456789"[d]
  }

  function DigitValue(c: char): nat
    requires IsDigit(c)
  {
    (c as int - '0' as int) as nat
  }

  /** `${n}` for a non-negative integer `n`: its decimal digits, most significant first. */
  function Decimal(n: nat): (s: string)
    ensures |s| > 0 && forall i :: 0 <= i < |s| ==> IsDigit(s[i])
  {
    if n < 10 then [DigitChar(n)] else Decimal(n / 10) + [DigitChar(n % 10)]
  }

  /** The number a string of decimal digits denotes. */
  function DecimalValue(s: string): nat
    requires forall i :: 0 <= i < |s| ==> IsDigit(s[i])
  {
    if s == [] then 0 else DecimalValue(s[..|s| - 1]) * 10 + DigitValue(s[|s| - 1])
  }

  lemma {:induction false} DecimalRoundTrip(n: nat)
    ensures DecimalValue(Decimal(n)) == n
  {
    var s := Decimal(n);
    if n < 10 {
      assert s[..0] == [];
    } else {
      DecimalRoundTrip(n / 10);
      assert s[..|s| - 1] == Decimal(n / 10);
    }
  }

  /** The longest prefix of `s` made of digits. */
  function LeadingDigits(s: string): string
  {
    if s == [] || !IsDigit(s[0]) then [] else [s[0]] + LeadingDigits(s[1..])
  }

  lemma {:induction false} LeadingDigitsOf(digits: string, rest: string)
    requires forall i :: 0 <= i < |digits| ==> IsDigit(digits[i])
    requires rest != [] && !IsDigit(rest[0])
    ensures LeadingDigits(digits + rest) == digits
  {
    if digits != [] {
      assert (digits + rest)[1..] == digits[1..] + rest;
      LeadingDigitsOf(digits[1..], rest);
    } else {
      assert digits + rest == rest;
    }
  }

  const SummaryPrefix := "The page contains "
  const SummaryMiddle := " headers and "
  const SummarySuffix := " links"

  /** `readPageSummary`, given the number of headers and of links on the page. */
  function SummaryMessage(headers: nat, links: nat): string
  {
    SummaryPrefix + Decimal(headers) + SummaryMiddle + Decimal(links) + SummarySuffix
  }

  /** The digits that follow `before` in `before + digits + rest`, up to the first non-digit of `rest`. */
  lemma DigitsAfter(before: string, digits: string, rest: string)
    requires forall i :: 0 <= i < |digits| ==> IsDigit(digits[i])
    requires rest != [] && !IsDigit(rest[0])
    ensures LeadingDigits((before + digits + rest)[|before|..]) == digits
  {
    assert (before + digits + rest)[|before|..] == digits + rest;
    LeadingDigitsOf(digits, rest);
  }

  /** The summary prompt states both counts: two summaries are equal only for equal counts. */
  lemma SummaryDeterminesCounts(h1: nat, l1: nat, h2: nat, l2: nat)
    requires SummaryMessage(h1, l1) == SummaryMessage(h2, l2)
    ensures h1 == h2 && l1 == l2
  {
    var d1, e1 := Decimal(h1), Decimal(l1);
    var d2, e2 := Decimal(h2), Decimal(l2);
    var m1 := SummaryMessage(h1, l1);
    assert m1 == SummaryPrefix + d1 + (SummaryMiddle + e1 + SummarySuffix);
    assert m1 == SummaryPrefix + d2 + (SummaryMiddle + e2 + SummarySuffix);
    DigitsAfter(SummaryPrefix, d1, SummaryMiddle + e1 + SummarySuffix);
    DigitsAfter(SummaryPrefix, d2, SummaryMiddle + e2 + SummarySuffix);
    assert d1 == d2;
    DecimalRoundTrip(h1);
    DecimalRoundTrip(h2);
    var before := SummaryPrefix + d1 + SummaryMiddle;
    assert m1 == before + e1 + SummarySuffix;
    assert m1 == before + e2 + SummarySuffix;
    DigitsAfter(before, e1, SummarySuffix);
    DigitsAfter(before, e2, SummarySuffix);
    DecimalRoundTrip(l1);
    DecimalRoundTrip(l2);
  }
}
