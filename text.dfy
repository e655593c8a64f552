/** The string operations of the .NET base library the provider relies on:
    `String.Trim`, `String.ToLower`, `String.Replace(old, "")`,
    `String.Split('|', RemoveEmptyEntries)` and `Int32.ToString()`.
    A character here is a Unicode scalar value, standing for one UTF-16 code
    unit of the source's strings; lower-casing is restricted to ASCII. */
module Text {

  // ---------------------------------------------------------------------------
  // White space and Trim

  /** The white-space characters `Char.IsWhiteSpace` accepts in the Latin-1 range. */
  predicate IsWhiteSpace(c: char)
  {
    c == ' ' || ('\t' <= c <= '\r') || c == '\U{0085}' || c == '\U{00A0}'
  }

  predicate AllWhiteSpace(s: string)
  {
    forall i :: 0 <= i < |s| ==> IsWhiteSpace(s[i])
  }

  /** Neither end of `s` is white space. */
  predicate IsTrimmed(s: string)
  {
    s == [] || (!IsWhiteSpace(s[0]) && !IsWhiteSpace(s[|s| - 1]))
  }

  /** The number of white-space characters `s` starts with. */
  function LeadingWhiteSpace(s: string): (k: nat)
    ensures k <= |s|
    ensures forall i :: 0 <= i < k ==> IsWhiteSpace(s[i])
    ensures k < |s| ==> !IsWhiteSpace(s[k])
  {
    if s != [] && IsWhiteSpace(s[0]) then 1 + LeadingWhiteSpace(s[1..]) else 0
  }

  /** The number of white-space characters `s` ends with. */
  function TrailingWhiteSpace(s: string): (k: nat)
    ensures k <= |s|
    ensures forall i :: |s| - k <= i < |s| ==> IsWhiteSpace(s[i])
    ensures k < |s| ==> !IsWhiteSpace(s[|s| - 1 - k])
  {
    if s != [] && IsWhiteSpace(s[|s| - 1]) then 1 + TrailingWhiteSpace(s[..|s| - 1]) else 0
  }

  /** `String.Trim()`: removes the white space at both ends. The result is the
      infix of `s` that starts after the leading white space, everything around
      it is white space, and it neither starts nor ends with white space. */
  function Trim(s: string): (r: string)
    ensures IsTrimmed(r)
    ensures var k := LeadingWhiteSpace(s);
      k + |r| <= |s| && r == s[k..k + |r|] &&
      AllWhiteSpace(s[..k]) && AllWhiteSpace(s[k + |r|..])
  {
    var k := LeadingWhiteSpace(s);
    if k == |s| then
      assert s[..k] == s;
      []
    else
      // Some character is not white space, so the two runs do not meet.
      var m := TrailingWhiteSpace(s);
      assert !IsWhiteSpace(s[k]);
      assert m < |s| - k;
      var front, back := s[..k], s[|s| - m..];
      forall i | 0 <= i < |front| ensures IsWhiteSpace(front[i]) {
        assert front[i] == s[i];
      }
      forall i | 0 <= i < |back| ensures IsWhiteSpace(back[i]) {
        assert back[i] == s[|s| - m + i];
      }
      s[k..|s| - m]
  }

  /** A string already trimmed is left as it is: Trim is idempotent. */
  lemma TrimOfTrimmed(s: string)
    requires IsTrimmed(s)
    ensures Trim(s) == s
  {
  }

  lemma TrimIdempotent(s: string)
    ensures Trim(Trim(s)) == Trim(s)
  {
    TrimOfTrimmed(Trim(s));
  }

  /** Trim gives the empty string exactly for the strings of white space only. */
  lemma TrimEmptyIff(s: string)
    ensures Trim(s) == [] <==> AllWhiteSpace(s)
  {
    var k := LeadingWhiteSpace(s);
    if Trim(s) == [] {
      assert s == s[..k] + s[k..];
    }
  }

  /** Every character of the trimmed string is a character of the original one. */
  lemma TrimKeepsCharacters(s: string)
    ensures forall c :: c in Trim(s) ==> c in s
  {
    var k := LeadingWhiteSpace(s);
    forall c | c in Trim(s) ensures c in s {
      var i :| 0 <= i < |Trim(s)| && Trim(s)[i] == c;
      assert s[k + i] == c;
    }
  }

  // ---------------------------------------------------------------------------
  // ToLower (ASCII)

  predicate IsUpper(c: char)
  {
    'A' <= c <= 'Z'
  }

  function LowerChar(c: char): (r: char)
    ensures !IsUpper(r)
    ensures IsUpper(c) ==> 'a' <= r <= 'z' && r != c
    ensures !IsUpper(c) ==> r == c
  {
    if IsUpper(c) then (c as int + 32) as char else c
  }

  /** `String.ToLower()` on ASCII letters, leaving every other character as it is. */
  function Lower(s: string): (r: string)
    ensures |r| == |s|
  {
    seq(|s|, i requires 0 <= i < |s| => LowerChar(s[i]))
  }

  predicate HasUpper(s: string)
  {
    exists i :: 0 <= i < |s| && IsUpper(s[i])
  }

  /** No element of `list` has an upper-case letter. */
  predicate NoUpperCase(list: seq<string>)
  {
    list == [] || (!HasUpper(list[0]) && NoUpperCase(list[1..]))
  }

  lemma {:induction false} NoUpperCaseFromElements(list: seq<string>)
    requires forall i :: 0 <= i < |list| ==> !HasUpper(list[i])
    ensures NoUpperCase(list)
  {
    if list != [] {
      NoUpperCaseFromElements(list[1..]);
    }
  }

  /** A string with an upper-case letter is not an element of such a list. */
  lemma {:induction false} NoUpperCaseExcludes(list: seq<string>, x: string)
    requires NoUpperCase(list) && HasUpper(x)
    ensures x !in list
  {
    if list != [] {
      assert list == [list[0]] + list[1..];
      NoUpperCaseExcludes(list[1..], x);
    }
  }

  /** A lower-cased string has no upper-case letter, so lowering it again changes nothing. */
  lemma LowerIsLowered(s: string)
    ensures !HasUpper(Lower(s))
    ensures Lower(Lower(s)) == Lower(s)
  {
  }

  /** A string with an upper-case letter is never equal to a lower-cased string. */
  lemma UpperNeverLowered(s: string, t: string)
    requires HasUpper(s)
    ensures s != Lower(t)
  {
    LowerIsLowered(t);
  }

  /** Lower-casing maps white space to white space and '|' only from '|',
      so it keeps a trimmed string trimmed and adds no separator. */
  lemma LowerKeepsShape(s: string)
    ensures IsTrimmed(s) ==> IsTrimmed(Lower(s))
    ensures '|' in Lower(s) ==> '|' in s
  {
    if '|' in Lower(s) {
      var i :| 0 <= i < |s| && Lower(s)[i] == '|';
      assert s[i] == '|';
    }
  }

  // ---------------------------------------------------------------------------
  // Replace(pattern, "")

  /** `String.Replace(pattern, "")`: scans left to right and deletes each
      non-overlapping occurrence of `pattern`. */
  function RemoveAll(s: string, pattern: string): (r: string)
    requires pattern != []
    ensures |r| <= |s|
    decreases |s|
  {
    if |s| < |pattern| then s
    else if s[..|pattern|] == pattern then RemoveAll(s[|pattern|..], pattern)
    else [s[0]] + RemoveAll(s[1..], pattern)
  }

  /** A string in which the first character of `pattern` does not occur is left unchanged. */
  lemma {:induction false} RemoveAllAbsent(s: string, pattern: string)
    requires pattern != [] && pattern[0] !in s
    ensures RemoveAll(s, pattern) == s
    decreases |s|
  {
    if |s| >= |pattern| {
      assert s[..|pattern|][0] == s[0];
      RemoveAllAbsent(s[1..], pattern);
      assert [s[0]] + s[1..] == s;
    }
  }

  // ---------------------------------------------------------------------------
  // Split('|', RemoveEmptyEntries) and its inverse

  /** Index of the first '|' in `s`, or |s| when there is none. */
  function SegmentEnd(s: string): (k: nat)
    ensures k <= |s|
    ensures '|' !in s[..k]
    ensures k < |s| ==> s[k] == '|'
    ensures s != [] && s[0] != '|' ==> k > 0
  {
    if s == [] || s[0] == '|' then 0 else 1 + SegmentEnd(s[1..])
  }

  /** `s.Split(new char[] { '|' }, StringSplitOptions.RemoveEmptyEntries)`:
      the maximal runs of non-'|' characters, in order; empty runs are dropped. */
  function Split(s: string): (r: seq<string>)
    ensures forall i :: 0 <= i < |r| ==> r[i] != [] && '|' !in r[i]
    decreases |s|
  {
    if s == [] then []
    else if s[0] == '|' then Split(s[1..])
    else
      var k := SegmentEnd(s);
      [s[..k]] + Split(s[k..])
  }

  /** `string.Join("|", segments)`. */
  function Join(segments: seq<string>): (r: string)
  {
    if segments == [] then []
    else if |segments| == 1 then segments[0]
    else segments[0] + "|" + Join(segments[1..])
  }

  predicate IsSegment(s: string)
  {
    s != [] && '|' !in s
  }

  lemma SplitSegment(x: string, rest: string)
    requires IsSegment(x)
    ensures Split(x) == [x]
    ensures Split(x + "|" + rest) == [x] + Split(rest)
  {
    assert SegmentEnd(x) == |x| by { SegmentEndOfSegment(x, []); }
    assert x[..|x|] == x;
    var s := x + "|" + rest;
    SegmentEndOfSegment(x, "|" + rest);
    assert s[..|x|] == x;
    assert s[|x|..] == "|" + rest;
    assert ("|" + rest)[1..] == rest;
  }

  lemma {:induction false} SegmentEndOfSegment(x: string, rest: string)
    requires '|' !in x
    requires rest == [] || rest[0] == '|'
    ensures SegmentEnd(x + rest) == |x|
    decreases |x|
  {
    if x != [] {
      assert (x + rest)[1..] == x[1..] + rest;
      SegmentEndOfSegment(x[1..], rest);
    } else {
      assert x + rest == rest;
    }
  }

  /** Round trip: joining non-empty segments without '|' and splitting again
      gives the segments back. */
  lemma {:induction false} SplitJoin(segments: seq<string>)
    requires forall i :: 0 <= i < |segments| ==> IsSegment(segments[i])
    ensures Split(Join(segments)) == segments
  {
    if |segments| == 1 {
      SplitSegment(segments[0], []);
    } else if |segments| > 1 {
      SplitSegment(segments[0], Join(segments[1..]));
      SplitJoin(segments[1..]);
    }
  }

  /** Splitting never produces a character that was not there: every segment's
      characters come from `s`. */
  lemma {:induction false} SplitCharacters(s: string, i: nat, c: char)
    requires i < |Split(s)| && c in Split(s)[i]
    ensures c in s
    decreases |s|
  {
    if s[0] == '|' {
      SplitCharacters(s[1..], i, c);
    } else {
      var k := SegmentEnd(s);
      if i > 0 {
        SplitCharacters(s[k..], i - 1, c);
      }
    }
  }

  // ---------------------------------------------------------------------------
  // Int32.ToString() for the non-negative ids

  function DigitChar(d: nat): (c: char)
    requires d < 10
    ensures '0' <= c <= '9'
  {
    ('0' as int + d) as char
  }

  predicate IsDecimal(s: string)
  {
    forall i :: 0 <= i < |s| ==> '0' <= s[i] <= '9'
  }

  /** The decimal digits of `n`, most significant first, without leading zeros. */
  function NatToString(n: nat): (r: string)
    ensures r != [] && IsDecimal(r)
    ensures |r| > 1 ==> r[0] != '0'
    decreases n
  {
    if n < 10 then [DigitChar(n)] else NatToString(n / 10) + [DigitChar(n % 10)]
  }

  /** The value of a string of decimal digits, the inverse of NatToString. */
  function DecimalValue(s: string): nat
    requires IsDecimal(s)
  {
    if s == [] then 0
    else 10 * DecimalValue(s[..|s| - 1]) + (s[|s| - 1] as int - '0' as int)
  }

  lemma {:induction false} DecimalRoundTrip(n: nat)
    ensures DecimalValue(NatToString(n)) == n
    decreases n
  {
    if n >= 10 {
      var r := NatToString(n);
      assert r[..|r| - 1] == NatToString(n / 10);
      DecimalRoundTrip(n / 10);
    }
  }

  /** Distinct numbers have distinct decimal representations. */
  lemma NatToStringInjective(m: nat, n: nat)
    requires m != n
    ensures NatToString(m) != NatToString(n)
  {
    DecimalRoundTrip(m);
    DecimalRoundTrip(n);
  }
}
