/** The string and number conversions the handlers rely on: Go's
    strings.ReplaceAll with an empty replacement, strings.TrimPrefix,
    strings.Join (with the matching split), strconv.Itoa / fmt.Sprint on an
    int, strconv.Atoi, big.Int.SetString(s, 10) and big.Int.Int64. */
module Text {
  import opened Outcomes

  // ---------------------------------------------------------------------
  // Occurrences of a pattern

  predicate OccursAt(s: string, pat: string, i: int)
  {
    0 <= i && i + |pat| <= |s| && s[i..i + |pat|] == pat
  }

  predicate Occurs(s: string, pat: string)
  {
    exists i :: 0 <= i <= |s| && OccursAt(s, pat, i)
  }

  /** strings.ReplaceAll(s, pat, ""): scan from the left and drop every
      non-overlapping occurrence of `pat`. */
  function RemoveAll(s: string, pat: string): string
    requires |pat| > 0
    decreases |s|
  {
    if |s| < |pat| then s
    else if s[..|pat|] == pat then RemoveAll(s[|pat|..], pat)
    else [s[0]] + RemoveAll(s[1..], pat)
  }

  /** Removing can only shorten, and a string without the pattern is left alone. */
  lemma {:induction false} RemoveAllShortens(s: string, pat: string)
    requires |pat| > 0
    ensures |RemoveAll(s, pat)| <= |s|
    ensures !Occurs(s, pat) ==> RemoveAll(s, pat) == s
    ensures Occurs(s, pat) ==> |RemoveAll(s, pat)| < |s|
    decreases |s|
  {
    if |s| < |pat| {
    } else if s[..|pat|] == pat {
      RemoveAllShortens(s[|pat|..], pat);
      assert OccursAt(s, pat, 0);
    } else {
      var t := s[1..];
      RemoveAllShortens(t, pat);
      if Occurs(s, pat) {
        var i :| 0 <= i <= |s| && OccursAt(s, pat, i);
        assert i != 0;
        assert t[i - 1..i - 1 + |pat|] == s[i..i + |pat|];
        assert OccursAt(t, pat, i - 1);
      }
      if !Occurs(s, pat) {
        if Occurs(t, pat) {
          var i :| 0 <= i <= |t| && OccursAt(t, pat, i);
          assert s[i + 1..i + 1 + |pat|] == t[i..i + |pat|];
          assert OccursAt(s, pat, i + 1);
        }
        assert [s[0]] + t == s;
      }
    }
  }

  /** A string whose characters never start the pattern is left alone. */
  lemma {:induction false} RemoveAllNoStart(s: string, pat: string)
    requires |pat| > 0 && pat[0] !in s
    ensures RemoveAll(s, pat) == s
    decreases |s|
  {
    if |s| >= |pat| {
      assert s[0] in s;
      assert s[..|pat|][0] == s[0];
      RemoveAllNoStart(s[1..], pat);
      assert [s[0]] + s[1..] == s;
    }
  }

  // ---------------------------------------------------------------------
  // The NUL escape removed before raw JSON is stored

  /** The six characters \u0000 (a JSON escape for the NUL character). */
  const NulEscape: string := "\\u0000"

  /** The sanitising step as the handlers write it: one ReplaceAll pass.
      It never lengthens, shortens a text holding the escape, and keeps a
      clean text as it is; it does not promise a clean result. */
  function StripNulOnce(s: string): (r: string)
    ensures |r| <= |s|
    ensures !Occurs(s, NulEscape) ==> r == s
    ensures Occurs(s, NulEscape) ==> |r| < |s|
  {
    RemoveAllShortens(s, NulEscape);
    RemoveAll(s, NulEscape)
  }

  /** One pass can leave a \u0000 behind: removing the inner occurrence
      joins the characters around it into a new one. */
  lemma StripNulOnceLeavesEscape()
    ensures StripNulOnce("\\\\u0000u0000") == NulEscape
    ensures Occurs(StripNulOnce("\\\\u0000u0000"), NulEscape)
  {
    var s := "\\\\u0000u0000";
    assert s[..6][1] != NulEscape[1];
    assert s[1..][..6] == NulEscape;
    assert s[1..][6..] == "u0000";
    assert OccursAt(NulEscape, NulEscape, 0);
  }

  /** The sanitising step as intended: repeat the pass until nothing is
      removed, so that no \u0000 remains. */
  function StripNulEscapes(s: string): (r: string)
    ensures !Occurs(r, NulEscape)
    ensures |r| <= |s|
    ensures !Occurs(s, NulEscape) ==> r == s
    decreases |s|
  {
    var t := StripNulOnce(s);
    if t == s then s else StripNulEscapes(t)
  }

  // ---------------------------------------------------------------------
  // strings.TrimPrefix

  function TrimPrefix(s: string, prefix: string): (r: string)
    ensures prefix <= s ==> s == prefix + r
    ensures !(prefix <= s) ==> r == s
  {
    if prefix <= s then s[|prefix|..] else s
  }

  /** Only one leading copy of the prefix goes. */
  lemma TrimPrefixOnce(prefix: string, h: string)
    ensures TrimPrefix(prefix + prefix + h, prefix) == prefix + h
    ensures TrimPrefix(prefix + h, prefix) == h
  {
    assert prefix <= prefix + prefix + h;
    assert prefix <= prefix + h;
    assert (prefix + prefix + h)[|prefix|..] == prefix + h;
    assert (prefix + h)[|prefix|..] == h;
  }

  // ---------------------------------------------------------------------
  // strings.Join and the split that undoes it

  function Join(xs: seq<string>, sep: string): string
    decreases |xs|
  {
    if xs == [] then ""
    else if |xs| == 1 then xs[0]
    else xs[0] + sep + Join(xs[1..], sep)
  }

  /** strings.Split: the pieces between the non-overlapping occurrences of `sep`. */
  function Split(s: string, sep: string): (r: seq<string>)
    requires |sep| > 0
    ensures |r| >= 1
    decreases |s|
  {
    if |s| < |sep| then [s]
    else if s[..|sep|] == sep then [""] + Split(s[|sep|..], sep)
    else
      var rest := Split(s[1..], sep);
      [[s[0]] + rest[0]] + rest[1..]
  }

  lemma {:induction false} SplitWhole(x: string, sep: string)
    requires |sep| > 0 && sep[0] !in x
    ensures Split(x, sep) == [x]
    decreases |x|
  {
    if |x| >= |sep| {
      assert x[0] in x;
      assert x[..|sep|][0] == x[0];
      SplitWhole(x[1..], sep);
      assert [x[0]] + x[1..] == x;
    }
  }

  lemma {:induction false} SplitAfter(x: string, sep: string, t: string)
    requires |sep| > 0 && sep[0] !in x
    ensures Split(x + sep + t, sep) == [x] + Split(t, sep)
    decreases |x|
  {
    var s := x + sep + t;
    if x == [] {
      assert s[..|sep|] == sep;
      assert s[|sep|..] == t;
    } else {
      assert x[0] in x;
      assert s[..|sep|][0] == x[0];
      assert s[1..] == x[1..] + sep + t;
      SplitAfter(x[1..], sep, t);
      assert [x[0]] + x[1..] == x;
    }
  }

  /** Joining with a separator loses nothing: splitting gives the list back
      when no element contains the separator's first character. */
  lemma {:induction false} SplitJoin(xs: seq<string>, sep: string)
    requires |sep| > 0 && |xs| >= 1
    requires forall i :: 0 <= i < |xs| ==> sep[0] !in xs[i]
    ensures Split(Join(xs, sep), sep) == xs
    decreases |xs|
  {
    if |xs| == 1 {
      SplitWhole(xs[0], sep);
    } else {
      SplitJoin(xs[1..], sep);
      SplitAfter(xs[0], sep, Join(xs[1..], sep));
    }
  }

  // ---------------------------------------------------------------------
  // Decimal integers

  predicate IsDigit(c: char) { '0' <= c <= '9' }

  predicate AllDigits(s: string) { forall i :: 0 <= i < |s| ==> IsDigit(s[i]) }

  function DigitValue(c: char): nat
    requires IsDigit(c)
  {
    (c as int) - ('0' as int)
  }

  function DigitChar(d: nat): (c: char)
    requires d < 10
    ensures IsDigit(c) && DigitValue(c) == d
  {
    (('0' as int) + d) as char
  }

  /** The value of a string of decimal digits, most significant first. */
  function DigitsValue(s: string): nat
    requires AllDigits(s)
    decreases |s|
  {
    if s == [] then 0 else 10 * DigitsValue(s[..|s| - 1]) + DigitValue(s[|s| - 1])
  }

  /** Decimal digits of a natural number, without leading zeros. */
  function NatToString(n: nat): (r: string)
    ensures |r| >= 1 && AllDigits(r)
    decreases n
  {
    if n < 10 then [DigitChar(n)] else NatToString(n / 10) + [DigitChar(n % 10)]
  }

  /** strconv.Itoa, and fmt.Sprint of an int. */
  function IntToString(n: int): (r: string)
    ensures |r| >= 1
  {
    if n < 0 then "-" + NatToString(-n) else NatToString(n)
  }

  /** The grammar shared by strconv.Atoi and big.Int.SetString(s, 10): an
      optional sign, then one or more decimal digits. */
  function ParseDecimal(s: string): (r: Option<int>)
    ensures r.Some? <==>
      (|s| >= 1 && AllDigits(s)) ||
      (|s| >= 2 && (s[0] == '+' || s[0] == '-') && AllDigits(s[1..]))
  {
    if |s| >= 1 && (s[0] == '+' || s[0] == '-') then
      var d := s[1..];
      if |d| >= 1 && AllDigits(d) then
        var v: int := DigitsValue(d);
        Some(if s[0] == '-' then -v else v)
      else None
    else if |s| >= 1 && AllDigits(s) then Some(DigitsValue(s))
    else None
  }

  lemma {:induction false} NatToStringValue(n: nat)
    ensures DigitsValue(NatToString(n)) == n
    decreases n
  {
    if n >= 10 {
      var a := NatToString(n / 10);
      var s := a + [DigitChar(n % 10)];
      assert s[..|s| - 1] == a;
      NatToStringValue(n / 10);
    }
  }

  /** Printing an integer and parsing it back gives the integer. */
  lemma ParseIntToString(n: int)
    ensures ParseDecimal(IntToString(n)) == Some(n)
  {
    var s := IntToString(n);
    if n < 0 {
      var d := NatToString(-n);
      NatToStringValue(-n);
      assert s == "-" + d;
      assert s[0] == '-' && s[1..] == d;
    } else {
      NatToStringValue(n);
      assert s == NatToString(n);
      assert IsDigit(s[0]);
    }
  }

  /** Distinct integers print differently. */
  lemma IntToStringInjective()
    ensures forall a: int, b: int :: IntToString(a) == IntToString(b) ==> a == b
  {
    forall a: int, b: int | IntToString(a) == IntToString(b)
      ensures a == b
    {
      ParseIntToString(a);
      ParseIntToString(b);
    }
  }

  // ---------------------------------------------------------------------
  // 64-bit integers

  const Int64Min: int := -0x8000_0000_0000_0000
  const Int64Max: int := 0x7fff_ffff_ffff_ffff

  predicate InInt64(v: int) { Int64Min <= v <= Int64Max }

  const Uint64Max: int := 0xffff_ffff_ffff_ffff

  /** The nearest 64-bit value. */
  function Clamp64(v: int): (r: int)
    ensures InInt64(r)
    ensures InInt64(v) ==> r == v
    ensures v < Int64Min ==> r == Int64Min
    ensures v > Int64Max ==> r == Int64Max
  {
    if v < Int64Min then Int64Min else if v > Int64Max then Int64Max else v
  }

  /** The text after an optional leading sign, and whether that sign is a minus. */
  function Unsigned(s: string): string
  {
    if |s| >= 1 && (s[0] == '+' || s[0] == '-') then s[1..] else s
  }

  predicate Negative(s: string)
  {
    |s| >= 1 && s[0] == '-'
  }

  /** Some run of digits at the start of the text after the sign is worth
      more than 64 unsigned bits: the unsigned conversion under
      strconv.ParseInt reads left to right and stops there with a range
      error, whatever follows. */
  predicate LeadingOverflow(s: string)
  {
    var u := Unsigned(s);
    exists i :: 0 <= i <= |u| && AllDigits(u[..i]) && DigitsValue(u[..i]) > Uint64Max
  }

  /** strconv.Atoi on a 64-bit platform: the value and whether it parsed.
      Strings of up to 18 bytes take Go's fast path; longer ones go through
      strconv.ParseInt, which reads the digits left to right and stops with
      the nearest bound as soon as they exceed 64 bits, even when a later
      character is not a digit. Otherwise a malformed string gives 0, and a
      value out of range gives the nearest bound. */
  datatype Parsed = Parsed(value: int, ok: bool)

  function Atoi(s: string): (r: Parsed)
    ensures r.ok <==> ParseDecimal(s).Some? && InInt64(ParseDecimal(s).value)
    ensures r.ok ==> Some(r.value) == ParseDecimal(s)
    ensures ParseDecimal(s).Some? ==> r.value == Clamp64(ParseDecimal(s).value)
    ensures ParseDecimal(s).None? && !LeadingOverflow(s) ==> r.value == 0
    ensures LeadingOverflow(s) ==> !r.ok && r.value == if Negative(s) then Int64Min else Int64Max
    ensures InInt64(r.value)
  {
    if LeadingOverflow(s) then
      OverflowOutOfRange(s);
      Parsed(if Negative(s) then Int64Min else Int64Max, false)
    else match ParseDecimal(s)
      case None => Parsed(0, false)
      case Some(v) => Parsed(Clamp64(v), InInt64(v))
  }

  /** A run of digits is worth no more than any longer run it starts. */
  lemma {:induction false} DigitsValuePrefix(s: string, i: int)
    requires AllDigits(s) && 0 <= i <= |s|
    ensures AllDigits(s[..i]) && DigitsValue(s[..i]) <= DigitsValue(s)
    decreases |s|
  {
    if i < |s| {
      var t := s[..|s| - 1];
      DigitsValuePrefix(t, i);
      assert t[..i] == s[..i];
    } else {
      assert s[..i] == s;
    }
  }

  /** When the leading digits already overflow and the whole text is a
      number, that number is out of the 64-bit range too. */
  lemma OverflowOutOfRange(s: string)
    requires LeadingOverflow(s)
    ensures ParseDecimal(s).Some? ==> !InInt64(ParseDecimal(s).value)
  {
    if ParseDecimal(s).Some? {
      var u := Unsigned(s);
      var i :| 0 <= i <= |u| && AllDigits(u[..i]) && DigitsValue(u[..i]) > Uint64Max;
      DigitsValuePrefix(u, i);
    }
  }

  /** Digits worth more than 64 unsigned bits, then anything that starts
      with a non-digit: Atoi gives the nearest bound, not 0. */
  lemma AtoiOverflowBeforeJunk(d: string, junk: string)
    requires AllDigits(d) && DigitsValue(d) > Uint64Max
    requires junk != [] && !IsDigit(junk[0])
    ensures Atoi(d + junk) == Parsed(Int64Max, false)
    ensures Atoi("+" + (d + junk)) == Parsed(Int64Max, false)
    ensures Atoi("-" + (d + junk)) == Parsed(Int64Min, false)
  {
    assert d != [];
    var t := d + junk;
    assert t[0] == d[0];
    assert t[..|d|] == d;
    assert LeadingOverflow(t);
    AtoiSigned(t);
  }

  /** A text that starts with a digit reads the same after either sign. */
  lemma AtoiSigned(t: string)
    requires LeadingOverflow(t) && t != [] && IsDigit(t[0])
    ensures Atoi(t) == Parsed(Int64Max, false)
    ensures Atoi("+" + t) == Parsed(Int64Max, false)
    ensures Atoi("-" + t) == Parsed(Int64Min, false)
  {
    assert Unsigned("+" + t) == t;
    assert Unsigned("-" + t) == t;
  }

  /** A 64-bit value survives printing and Atoi. */
  lemma AtoiIntToString(n: int)
    requires InInt64(n)
    ensures Atoi(IntToString(n)) == Parsed(n, true)
  {
    ParseIntToString(n);
  }

  /** big.Int.Int64: the low 64 bits read as a signed integer (Go leaves the
      result unspecified outside the int64 range; this is the value its
      implementation produces). */
  function Int64Of(v: int): (r: int)
    ensures InInt64(r)
    ensures InInt64(v) ==> r == v
  {
    var m := v % 0x1_0000_0000_0000_0000;
    if m > Int64Max then m - 0x1_0000_0000_0000_0000 else m
  }
}
