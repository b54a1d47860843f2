// Text helpers with Python's meaning: substring search, strip, split, and
// decimal numbers.
module PyText {

  import opened Wrappers

  // ---------- searching ----------

  predicate OccursAt<T(==)>(s: seq<T>, pat: seq<T>, i: int)
  {
    0 <= i && i + |pat| <= |s| && s[i..i + |pat|] == pat
  }

  lemma SliceOfTail<T>(s: seq<T>, i: int, k: int)
    requires 1 <= i <= k <= |s|
    ensures s[1..][i - 1..k - 1] == s[i..k]
  {
  }

  lemma ShiftOccurrences<T>(s: seq<T>, pat: seq<T>)
    requires s != []
    ensures forall j {:trigger OccursAt(s, pat, j)} :: 1 <= j ==> OccursAt(s, pat, j) == OccursAt(s[1..], pat, j - 1)
  {
    forall j {:trigger OccursAt(s, pat, j)} | 1 <= j
      ensures OccursAt(s, pat, j) == OccursAt(s[1..], pat, j - 1)
    {
      if j + |pat| <= |s| {
        SliceOfTail(s, j, j + |pat|);
      }
    }
  }

  // The first occurrence of pat in s, as str.find / str.split(pat, 1) locate it.
  function Find<T(==)>(s: seq<T>, pat: seq<T>): (r: Option<nat>)
    ensures r.Some? ==> OccursAt(s, pat, r.value)
    ensures r.Some? ==> forall j :: 0 <= j < r.value ==> !OccursAt(s, pat, j)
    ensures r.None? ==> forall j :: !OccursAt(s, pat, j)
  {
    if |s| < |pat| then None
    else if OccursAt(s, pat, 0) then Some(0)
    else
      ShiftOccurrences(s, pat);
      match Find(s[1..], pat)
      case None => None
      case Some(i) => Some(i + 1)
  }

  lemma FindIs<T>(s: seq<T>, pat: seq<T>, i: nat)
    requires OccursAt(s, pat, i)
    requires forall j :: 0 <= j < i ==> !OccursAt(s, pat, j)
    ensures Find(s, pat) == Some(i)
  {
  }

  // ---------- strip ----------

  // The characters str.strip() removes.
  predicate IsSpace(c: char)
  {
    var n := c as int;
    || 9 <= n <= 13
    || 28 <= n <= 32
    || n == 0x85 || n == 0xA0 || n == 0x1680
    || 0x2000 <= n <= 0x200A
    || n == 0x2028 || n == 0x2029 || n == 0x202F || n == 0x205F || n == 0x3000
  }

  predicate Trimmed(s: string)
  {
    s == "" || (!IsSpace(s[0]) && !IsSpace(s[|s| - 1]))
  }

  predicate CleanText(s: string)
  {
    s != "" && Trimmed(s)
  }

  // Where the text starts, |s| when all of it is blank.
  function LeadingBlanks(s: string): (n: nat)
    ensures n <= |s|
    ensures n < |s| ==> !IsSpace(s[n])
    ensures s != "" && !IsSpace(s[0]) ==> n == 0
  {
    if s != "" && IsSpace(s[0]) then 1 + LeadingBlanks(s[1..]) else 0
  }

  function RStrip(s: string): (r: string)
    ensures r == "" || !IsSpace(r[|r| - 1])
    ensures |r| <= |s| && r == s[..|r|]
    ensures s != "" && !IsSpace(s[|s| - 1]) ==> r == s
  {
    if s != "" && IsSpace(s[|s| - 1]) then RStrip(s[..|s| - 1]) else s
  }

  // str.strip(): the result is trimmed, and trimmed text is a fixed point.
  function Strip(s: string): (r: string)
    ensures Trimmed(r)
    ensures Trimmed(s) ==> r == s
  {
    RStrip(s[LeadingBlanks(s)..])
  }

  lemma {:induction false} LeadingAreBlank(s: string)
    ensures forall k :: 0 <= k < LeadingBlanks(s) ==> IsSpace(s[k])
  {
    if s != "" && IsSpace(s[0]) {
      LeadingAreBlank(s[1..]);
      assert forall k :: 1 <= k < LeadingBlanks(s) ==> s[k] == s[1..][k - 1];
    }
  }

  lemma {:induction false} TrailingAreBlank(s: string)
    ensures forall k :: |RStrip(s)| <= k < |s| ==> IsSpace(s[k])
  {
    if s != "" && IsSpace(s[|s| - 1]) {
      TrailingAreBlank(s[..|s| - 1]);
    }
  }

  // Stripping removes blanks at both ends and nothing else.
  lemma StripMeaning(s: string)
    ensures var i := LeadingBlanks(s);
            var j := i + |Strip(s)|;
            && j <= |s| && Strip(s) == s[i..j]
            && (forall k :: 0 <= k < i ==> IsSpace(s[k])) && (forall k :: j <= k < |s| ==> IsSpace(s[k]))
  {
    var i := LeadingBlanks(s);
    var rest := s[i..];
    LeadingAreBlank(s);
    TrailingAreBlank(rest);
    BlanksBehind(s, i, |RStrip(rest)|);
  }

  lemma BlanksBehind(s: string, i: nat, n: nat)
    requires i + n <= |s| && forall k :: n <= k < |s[i..]| ==> IsSpace(s[i..][k])
    ensures forall k :: i + n <= k < |s| ==> IsSpace(s[k])
    ensures s[i..][..n] == s[i..i + n]
  {
    forall k | i + n <= k < |s|
      ensures IsSpace(s[k])
    {
      assert s[k] == s[i..][k - i];
    }
  }

  lemma StripLeading(p: string)
    requires p != "" && Trimmed(p)
    ensures Strip(" " + p) == p
  {
    var s := " " + p;
    assert s[1..] == p;
    assert LeadingBlanks(s) == 1 + LeadingBlanks(p);
  }

  // ---------- split ----------

  // s.split(sep): the pieces between the non-overlapping occurrences of sep.
  function Split(s: string, sep: string): (r: seq<string>)
    requires |sep| > 0
    ensures |r| >= 1
    decreases |s|
  {
    match Find(s, sep)
    case None => [s]
    case Some(i) => [s[..i]] + Split(s[i + |sep|..], sep)
  }

  // sep.join(parts)
  function Join(parts: seq<string>, sep: string): string
  {
    if |parts| == 0 then ""
    else if |parts| == 1 then parts[0]
    else parts[0] + sep + Join(parts[1..], sep)
  }

  lemma SepAfter(first: string, sep: string, rest: string)
    requires sep != "" && sep[0] !in first
    ensures Find(first + sep + rest, sep) == Some(|first|)
  {
    var text := first + sep + rest;
    assert text[|first|..|first| + |sep|] == sep;
    forall j: nat | j < |first|
      ensures !OccursAt(text, sep, j)
    {
      assert text[j] == first[j] && first[j] in first;
      if j + |sep| <= |text| {
        assert text[j..j + |sep|][0] == text[j];
      }
    }
    FindIs(text, sep, |first|);
  }

  lemma NoSepIn(first: string, sep: string)
    requires sep != "" && sep[0] !in first
    ensures Find(first, sep) == None
  {
    forall j: nat | j < |first|
      ensures !OccursAt(first, sep, j)
    {
      assert first[j] in first;
      if j + |sep| <= |first| {
        assert first[j..j + |sep|][0] == first[j];
      }
    }
  }

  lemma SplitFirst(first: string, sep: string, rest: string)
    requires sep != "" && sep[0] !in first
    ensures Split(first + sep + rest, sep) == [first] + Split(rest, sep)
  {
    SepAfter(first, sep, rest);
    var text := first + sep + rest;
    assert text[..|first|] == first && text[|first| + |sep|..] == rest;
  }

  // Splitting undoes joining when no part holds the separator's first character.
  lemma {:induction false} SplitJoin(parts: seq<string>, sep: string)
    requires parts != [] && sep != "" && forall p :: p in parts ==> sep[0] !in p
    ensures Split(Join(parts, sep), sep) == parts
    decreases |parts|
  {
    if |parts| == 1 {
      NoSepIn(parts[0], sep);
    } else {
      SplitJoin(parts[1..], sep);
      SplitFirst(parts[0], sep, Join(parts[1..], sep));
      assert parts == [parts[0]] + parts[1..];
    }
  }

  // And joining undoes splitting, always.
  lemma {:induction false} JoinSplit(s: string, sep: string)
    requires sep != ""
    ensures Join(Split(s, sep), sep) == s
    decreases |s|
  {
    match Find(s, sep)
    case None =>
    case Some(i) =>
      JoinSplit(s[i + |sep|..], sep);
      assert ([s[..i]] + Split(s[i + |sep|..], sep))[1..] == Split(s[i + |sep|..], sep);
      assert s == s[..i] + sep + s[i + |sep|..];
  }

  // ---------- comparison and case ----------

  // a < b on str: by code point.
  predicate TextLess(a: string, b: string)
  {
    if b == "" then false
    else if a == "" then true
    else a[0] < b[0] || (a[0] == b[0] && TextLess(a[1..], b[1..]))
  }

  lemma {:induction false} TextLessTotal(a: string, b: string)
    ensures !(TextLess(a, b) && TextLess(b, a))
    ensures a == b <==> !TextLess(a, b) && !TextLess(b, a)
  {
    if a != "" && b != "" {
      TextLessTotal(a[1..], b[1..]);
      assert a == [a[0]] + a[1..] && b == [b[0]] + b[1..];
    }
  }

  lemma {:induction false} TextLessTransitive(a: string, b: string, c: string)
    requires TextLess(a, b) && TextLess(b, c)
    ensures TextLess(a, c)
  {
    if a != "" && a[0] == b[0] == c[0] {
      TextLessTransitive(a[1..], b[1..], c[1..]);
    }
  }

  // a < b: a is a proper prefix of b, or has the smaller character where they
  // first differ.
  lemma {:induction false} TextLessMeaning(a: string, b: string)
    ensures TextLess(a, b) <==>
            exists k :: 0 <= k <= |a| && k < |b| && a[..k] == b[..k] && (k < |a| ==> a[k] < b[k])
  {
    if a != [] && b != [] && a[0] == b[0] {
      TextLessMeaning(a[1..], b[1..]);
      if TextLess(a, b) {
        var k :| 0 <= k <= |a[1..]| && k < |b[1..]| && a[1..][..k] == b[1..][..k] && (k < |a[1..]| ==> a[1..][k] < b[1..][k]);
        assert a[..k + 1] == [a[0]] + a[1..][..k] && b[..k + 1] == [b[0]] + b[1..][..k];
      }
      forall k | 1 <= k <= |a| && k < |b| && a[..k] == b[..k] && (k < |a| ==> a[k] < b[k])
        ensures TextLess(a, b)
      {
        assert a[1..][..k - 1] == a[..k][1..] && b[1..][..k - 1] == b[..k][1..];
      }
    } else if a != [] && b != [] {
      assert a[..0] == b[..0];
      assert forall k :: 1 <= k <= |a| && k < |b| && a[..k] == b[..k] ==> a[..k][0] == b[..k][0];
    } else {
      assert a[..0] == b[..0];
    }
  }

  // str.lower() on ASCII text.
  function Lower(s: string): (r: string)
    ensures |r| == |s|
  {
    seq(|s|, i requires 0 <= i < |s| => if 'A' <= s[i] <= 'Z' then (s[i] as int + 32) as char else s[i])
  }

  lemma LowerMeaning(s: string, i: nat)
    requires i < |s|
    ensures 'A' <= s[i] <= 'Z' ==> Lower(s)[i] as int == s[i] as int + 32
    ensures !('A' <= s[i] <= 'Z') ==> Lower(s)[i] == s[i]
  {
  }

  // ---------- decimal numbers ----------

  predicate IsDigit(c: char)
  {
    '0' <= c <= '9'
  }

  predicate AllDigits(s: string)
  {
    forall i :: 0 <= i < |s| ==> IsDigit(s[i])
  }

  // str(n) for n >= 0
  function PrintNat(n: nat): (s: string)
    ensures |s| > 0 && AllDigits(s)
  {
    var last := [('0' as int + n % 10) as char];
    if n < 10 then last else PrintNat(n / 10) + last
  }

  function DigitsValue(s: string): nat
    requires AllDigits(s)
  {
    if s == "" then 0
    else 10 * DigitsValue(s[..|s| - 1]) + (s[|s| - 1] as int - '0' as int)
  }

  // int(s) for plain decimal text: blanks around it are dropped and one sign is
  // allowed; anything else is Python's ValueError.
  function ParseInt(s: string): Option<int>
  {
    var t := Strip(s);
    if t != "" && AllDigits(t) then Some(DigitsValue(t))
    else if |t| > 1 && AllDigits(t[1..]) && t[0] == '-' then Some(-(DigitsValue(t[1..]) as int))
    else if |t| > 1 && AllDigits(t[1..]) && t[0] == '+' then Some(DigitsValue(t[1..]))
    else None
  }

  lemma {:induction false} DigitsRoundTrip(n: nat)
    ensures DigitsValue(PrintNat(n)) == n
  {
    var s := PrintNat(n);
    assert s[|s| - 1] as int - '0' as int == n % 10;
    if n >= 10 {
      assert s[..|s| - 1] == PrintNat(n / 10);
      DigitsRoundTrip(n / 10);
    } else {
      assert s[..|s| - 1] == "";
    }
  }

  lemma PlainDigitsParse(s: string)
    requires s != "" && AllDigits(s)
    ensures Trimmed(s) && '|' !in s
    ensures ParseInt(s).Some? && ParseInt(s).value == DigitsValue(s)
  {
    assert IsDigit(s[0]) && IsDigit(s[|s| - 1]);
    assert forall c :: c in s ==> IsDigit(c);
  }

  lemma NegatedDigitsParse(s: string)
    requires s != "" && AllDigits(s)
    ensures var t := "-" + s;
            ParseInt(t).Some? && ParseInt(t).value + DigitsValue(s) == 0 && Trimmed(t) && '|' !in t
  {
    var t := "-" + s;
    PlainDigitsParse(s);
    assert t[1..] == s && t[|t| - 1] == s[|s| - 1];
    assert !IsDigit(t[0]);
  }

  lemma IntRoundTrip(n: int)
    requires n >= 0
    ensures ParseInt(PrintNat(n)) == Some(n)
  {
    PlainDigitsParse(PrintNat(n));
    DigitsRoundTrip(n);
  }

  lemma PrintedIsTrimmed(n: nat)
    ensures Trimmed(PrintNat(n)) && '|' !in PrintNat(n)
  {
    PlainDigitsParse(PrintNat(n));
  }

  lemma NegativeRoundTrip(n: nat)
    ensures var s := "-" + PrintNat(n);
            ParseInt(s).Some? && ParseInt(s).value + n == 0 && Trimmed(s) && '|' !in s
  {
    NegatedDigitsParse(PrintNat(n));
    DigitsRoundTrip(n);
  }
}
