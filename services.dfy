/** The voucher code allocator of services.py: the next code is "TWC-"
    followed by one more than the largest numeric suffix stored, where the
    suffix is read the way MySQL evaluates
    `CAST(SUBSTRING(code, LOCATE('-', code) + 1) AS UNSIGNED)` (leading blanks
    skipped, then the leading digits, saturating at the largest BIGINT
    UNSIGNED) and NULL codes are ignored by `MAX`. Python's `max_code + 1`
    does not wrap, so past the ceiling the allocator keeps returning the
    same code. */
module Services {
  import opened Common

  const Prefix: string := "TWC-"

  /** `MAX(...)` over no non-NULL value yields NULL; the allocator then uses 999. */
  const DefaultMax: nat := 999

  /** The largest BIGINT UNSIGNED, 2^64 - 1, where `CAST` saturates. */
  const MaxUnsigned: nat := 18446744073709551615

  predicate AllDigits(s: string) {
    forall i :: 0 <= i < |s| ==> IsDigit(s[i])
  }

  /** Position of the first '-', or |s| when there is none
      (`LOCATE('-', s)` is this plus one, or 0). */
  function DashIndex(s: string): (i: nat)
    ensures i <= |s|
    ensures i < |s| ==> s[i] == '-'
    ensures forall j :: 0 <= j < i ==> s[j] != '-'
  {
    if s == [] then 0
    else if s[0] == '-' then 0
    else 1 + DashIndex(s[1..])
  }

  /** `SUBSTRING(s, LOCATE('-', s) + 1)`: the text after the first '-'; the
      whole string when there is no '-'. */
  function SuffixText(s: string): string {
    var i := DashIndex(s);
    if i < |s| then s[i + 1..] else s
  }

  /** The longest prefix of s made of decimal digits. */
  function LeadingDigits(s: string): (r: string)
    ensures |r| <= |s| && r == s[..|r|]
    ensures AllDigits(r)
    ensures |r| < |s| ==> !IsDigit(s[|r|])
  {
    if s == [] || !IsDigit(s[0]) then []
    else [s[0]] + LeadingDigits(s[1..])
  }

  /** The number a string of decimal digits denotes. */
  function DecimalValue(ds: string): nat
    requires AllDigits(ds)
  {
    if ds == [] then 0
    else 10 * DecimalValue(ds[..|ds| - 1]) + (ds[|ds| - 1] as int - '0' as int)
  }

  /** The blanks MySQL skips before a number: space, and tab, line feed,
      vertical tab, form feed, carriage return (code points 9 to 13). */
  predicate IsBlank(c: char) {
    c == ' ' || '\t' <= c <= '\r'
  }

  /** s without its leading blanks (see SkipBlanksDropsBlanks). */
  function SkipBlanks(s: string): string {
    if s != [] && IsBlank(s[0]) then SkipBlanks(s[1..]) else s
  }

  /** `CAST(t AS UNSIGNED)`: the value of the digits after the leading blanks,
      0 when there are none, and 2^64 - 1 when the value does not fit. */
  function CastUnsigned(t: string): (r: nat)
    ensures r <= MaxUnsigned
  {
    var v := DecimalValue(LeadingDigits(SkipBlanks(t)));
    if v <= MaxUnsigned then v else MaxUnsigned
  }

  /** The numeric suffix the allocator reads from one stored code. */
  function Suffix(code: string): nat {
    CastUnsigned(SuffixText(code))
  }

  /** `MAX(...)` over the suffixes of the non-NULL codes; None plays SQL NULL. */
  function MaxSuffix(codes: seq<Option<string>>): Option<nat> {
    if codes == [] then None
    else
      var rest := MaxSuffix(codes[..|codes| - 1]);
      var last := codes[|codes| - 1];
      if last.None? then rest
      else if rest.None? || rest.value < Suffix(last.value) then Some(Suffix(last.value))
      else rest
  }

  /** Python's `str(n)` for a non-negative int: decimal digits, no leading zero. */
  function DecimalString(n: nat): (s: string)
    ensures |s| >= 1 && AllDigits(s)
    ensures |s| > 1 ==> s[0] != '0'
  {
    if n < 10 then ['0' + n as char]
    else DecimalString(n / 10) + ['0' + (n % 10) as char]
  }

  /** The suffix number of the next code: MAX + 1, or 1000 when MAX is NULL. */
  function NextSuffix(codes: seq<Option<string>>): nat {
    match MaxSuffix(codes)
    case None => DefaultMax + 1
    case Some(m) => m + 1
  }

  /** get_next_voucher_code: reads the stored codes and reserves nothing. */
  function NextVoucherCode(codes: seq<Option<string>>): string {
    Prefix + DecimalString(NextSuffix(codes))
  }

  // ------------------------------------------------------------------ lemmas

  /** Reading back what `str` wrote gives the number. */
  lemma {:induction false} DecimalRoundTrip(n: nat)
    ensures DecimalValue(DecimalString(n)) == n
  {
    if n >= 10 {
      DecimalRoundTrip(n / 10);
      var s := DecimalString(n);
      assert s[..|s| - 1] == DecimalString(n / 10);
    }
  }

  lemma LeadingDigitsOfDigits(s: string)
    requires AllDigits(s)
    ensures LeadingDigits(s) == s
  {
  }

  /** The suffix parse of an allocated code gives back the number allocated,
      or the ceiling when the number does not fit in BIGINT UNSIGNED. */
  lemma SuffixOfAllocated(n: nat)
    ensures Suffix(Prefix + DecimalString(n)) == if n <= MaxUnsigned then n else MaxUnsigned
  {
    var s := Prefix + DecimalString(n);
    assert DashIndex(s) == 3 by {
      assert s[3] == '-';
      assert s[0] != '-' && s[1] != '-' && s[2] != '-';
    }
    assert SuffixText(s) == DecimalString(n);
    assert SkipBlanks(DecimalString(n)) == DecimalString(n);
    LeadingDigitsOfDigits(DecimalString(n));
    DecimalRoundTrip(n);
  }

  /** Exactly the leading blanks are dropped. */
  lemma {:induction false} SkipBlanksDropsBlanks(s: string)
    ensures var r := SkipBlanks(s);
      && |r| <= |s| && r == s[|s| - |r|..]
      && (forall i :: 0 <= i < |s| - |r| ==> IsBlank(s[i]))
      && (r == [] || !IsBlank(r[0]))
  {
    if s != [] && IsBlank(s[0]) {
      SkipBlanksDropsBlanks(s[1..]);
    }
  }

  /** The fold is SQL's MAX: NULL exactly when every code is NULL, otherwise
      the suffix of some stored code and no smaller than any of them. */
  lemma {:induction false} MaxSuffixIsMax(codes: seq<Option<string>>)
    ensures var r := MaxSuffix(codes);
      && (r.None? <==> forall i :: 0 <= i < |codes| ==> codes[i].None?)
      && (r.Some? ==> forall i :: 0 <= i < |codes| && codes[i].Some? ==> Suffix(codes[i].value) <= r.value)
      && (r.Some? ==> exists i :: 0 <= i < |codes| && codes[i].Some? && Suffix(codes[i].value) == r.value)
  {
    if codes != [] {
      var init := codes[..|codes| - 1];
      MaxSuffixIsMax(init);
      assert forall i :: 0 <= i < |init| ==> init[i] == codes[i];
      var r := MaxSuffix(codes);
      if r.Some? && r == MaxSuffix(init) {
        var i :| 0 <= i < |init| && init[i].Some? && Suffix(init[i].value) == r.value;
        assert codes[i] == init[i];
      }
    }
  }

  /** With no non-NULL code stored the allocator returns "TWC-1000". */
  lemma EmptyStoreGivesTwc1000(codes: seq<Option<string>>)
    requires forall i :: 0 <= i < |codes| ==> codes[i].None?
    ensures NextVoucherCode(codes) == "TWC-1000"
  {
    MaxSuffixIsMax(codes);
    assert DecimalString(1000) == "1000";
  }

  /** The allocated code is "TWC-" then a decimal number at least 1, its
      suffix is MAX + 1 up to the ceiling, and unless MAX is already at the
      ceiling it is strictly above every stored suffix. */
  lemma NextCodeExceedsStored(codes: seq<Option<string>>)
    ensures var r := NextVoucherCode(codes);
      && |r| > |Prefix| && r[..|Prefix|] == Prefix && AllDigits(r[|Prefix|..])
      && Suffix(r) >= 1
      && Suffix(r) == (if NextSuffix(codes) <= MaxUnsigned then NextSuffix(codes) else MaxUnsigned)
      && (MaxSuffix(codes).Some? && MaxSuffix(codes).value < MaxUnsigned ==>
            Suffix(r) == MaxSuffix(codes).value + 1)
      && (MaxSuffix(codes) != Some(MaxUnsigned) ==>
            forall i :: 0 <= i < |codes| && codes[i].Some? ==> Suffix(codes[i].value) < Suffix(r))
  {
    MaxSuffixIsMax(codes);
    SuffixOfAllocated(NextSuffix(codes));
  }

  /** Storing an allocated code makes the next allocation's suffix strictly
      larger while it is below the ceiling; at the ceiling it stays there. */
  lemma SequentialAllocationsIncrease(codes: seq<Option<string>>)
    ensures var first := NextVoucherCode(codes);
      var next := NextVoucherCode(codes + [Some(first)]);
      && (Suffix(first) < MaxUnsigned ==> Suffix(first) < Suffix(next))
      && (Suffix(first) == MaxUnsigned ==> Suffix(next) == MaxUnsigned)
  {
    var first := NextVoucherCode(codes);
    var more := codes + [Some(first)];
    NextCodeExceedsStored(codes);
    MaxSuffixIsMax(codes);
    assert MaxSuffix(codes).Some? ==> MaxSuffix(codes).value <= MaxUnsigned;
    assert more[..|codes|] == codes;
    assert MaxSuffix(more) == Some(Suffix(first));
    SuffixOfAllocated(Suffix(first) + 1);
  }

  /** Once a stored suffix reaches 2^64 - 1, storing the allocated code and
      allocating again yields that same code: codes are no longer unique. */
  lemma SaturatedAllocationRepeats(codes: seq<Option<string>>)
    requires MaxSuffix(codes) == Some(MaxUnsigned)
    ensures var first := NextVoucherCode(codes);
      && Suffix(first) == MaxUnsigned
      && NextVoucherCode(codes + [Some(first)]) == first
  {
    var first := NextVoucherCode(codes);
    SuffixOfAllocated(MaxUnsigned + 1);
    var more := codes + [Some(first)];
    assert more[..|codes|] == codes;
    assert MaxSuffix(more) == Some(MaxUnsigned);
  }

  /** A code without '-' contributes its whole text; text that starts with
      neither a digit nor a blank contributes 0. */
  lemma SuffixWithoutDash(code: string)
    requires '-' !in code
    ensures Suffix(code) == CastUnsigned(code)
    ensures code == [] || (!IsDigit(code[0]) && !IsBlank(code[0])) ==> Suffix(code) == 0
  {
  }
}
