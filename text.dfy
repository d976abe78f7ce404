/**
 * The string operations of Go's standard library that the core relies on:
 * strconv.ParseInt/Atoi/ParseBool, strings.Split, strings.ToLower,
 * strings.TrimPrefix and strings.Replace(..., 1).
 */
module Text {
  import opened Wrappers
  import opened Records

  predicate IsDigit(c: char) { '0' <= c <= '9' }

  predicate AllDigits(s: string) { forall i :: 0 <= i < |s| ==> IsDigit(s[i]) }

  /** The value of a run of decimal digits, most significant first. */
  function DigitsValue(s: string): nat
    requires AllDigits(s)
  {
    if s == [] then 0 else DigitsValue(s[..|s| - 1]) * 10 + (s[|s| - 1] as int - '0' as int)
  }

  /**
   * strconv.ParseInt(s, 10, 64), which strconv.Atoi matches on a 64-bit platform:
   * an optional sign, at least one decimal digit, nothing else, and a value
   * that fits in 64 bits.
   */
  function ParseInt64(s: string): (r: Option<Int64>)
    ensures r.Some? ==> s != [] && (s[0] == '-' || s[0] == '+' || IsDigit(s[0]))
    ensures r.Some? && IsDigit(s[0]) ==> AllDigits(s) && r.value == DigitsValue(s)
    ensures r.Some? && (s[0] == '-' || s[0] == '+') ==>
              |s| > 1 && AllDigits(s[1..]) &&
              r.value == if s[0] == '-' then -(DigitsValue(s[1..]) as int) else DigitsValue(s[1..])
    ensures s != [] && AllDigits(s) && DigitsValue(s) < 0x8000_0000_0000_0000 ==> r == Some(DigitsValue(s))
    ensures |s| > 1 && s[0] == '-' && AllDigits(s[1..]) && DigitsValue(s[1..]) <= 0x8000_0000_0000_0000 ==>
              r == Some(-(DigitsValue(s[1..]) as int))
    ensures |s| > 1 && s[0] == '+' && AllDigits(s[1..]) && DigitsValue(s[1..]) < 0x8000_0000_0000_0000 ==>
              r == Some(DigitsValue(s[1..]))
  {
    if s == [] then None
    else
      var negative := s[0] == '-';
      var body := if s[0] == '-' || s[0] == '+' then s[1..] else s;
      if body == [] || !AllDigits(body) then None
      else
        var v: int := if negative then -(DigitsValue(body) as int) else DigitsValue(body);
        if -0x8000_0000_0000_0000 <= v < 0x8000_0000_0000_0000 then Some(v) else None
  }

  function Digit(d: nat): (c: char)
    requires d < 10
    ensures IsDigit(c) && c as int - '0' as int == d
  {
    ('0' as int + d) as char
  }

  /** The decimal rendering of a natural number, without leading zeros. */
  function Decimal(n: nat): (s: string)
    ensures s != [] && AllDigits(s)
  {
    if n < 10 then [Digit(n)] else Decimal(n / 10) + [Digit(n % 10)]
  }

  /** strconv.FormatInt(n, 10). */
  function FormatInt(n: int): string
  {
    if n < 0 then "-" + Decimal(-n) else Decimal(n)
  }

  lemma {:induction false} DecimalValue(n: nat)
    ensures DigitsValue(Decimal(n)) == n
  {
    var s := Decimal(n);
    if n < 10 {
      assert s[..|s| - 1] == [];
    } else {
      DecimalValue(n / 10);
      assert s[..|s| - 1] == Decimal(n / 10);
    }
  }

  /** Parsing reads back every 64-bit integer the formatter writes. */
  lemma ParseFormatRoundTrip(n: Int64)
    ensures ParseInt64(FormatInt(n)) == Some(n)
  {
    if n < 0 {
      var m: int := -(n as int);
      DecimalValue(m);
      var s := FormatInt(n);
      assert s[1..] == Decimal(m);
    } else {
      DecimalValue(n);
      assert IsDigit(Decimal(n)[0]);
    }
  }

  /** strconv.ParseBool: six spellings of true, six of false, nothing else. */
  function ParseBool(s: string): (r: Option<bool>)
    ensures r.Some? <==> s in {"1", "t", "T", "TRUE", "true", "True", "0", "f", "F", "FALSE", "false", "False"}
    ensures r == Some(true) <==> s in {"1", "t", "T", "TRUE", "true", "True"}
  {
    if s in {"1", "t", "T", "TRUE", "true", "True"} then Some(true)
    else if s in {"0", "f", "F", "FALSE", "false", "False"} then Some(false)
    else None
  }

  function LowerChar(c: char): char
  {
    if 'A' <= c <= 'Z' then (c as int - 'A' as int + 'a' as int) as char else c
  }

  /** strings.ToLower, restricted to ASCII letters. */
  function ToLower(s: string): string
  {
    seq(|s|, i requires 0 <= i < |s| => LowerChar(s[i]))
  }

  /** The fields with one more character appended to the last one. */
  function ExtendLast(parts: seq<string>, c: char): (r: seq<string>)
    requires |parts| >= 1
    ensures |r| == |parts|
    ensures forall p :: p in r ==> p in parts[..|parts| - 1] || p == parts[|parts| - 1] + [c]
  {
    parts[..|parts| - 1] + [parts[|parts| - 1] + [c]]
  }

  /**
   * strings.Split with a one-character separator: all |occurrences| + 1 fields,
   * empty ones included. Defined on the last character, the way a left-to-right
   * scan builds it.
   */
  function Split(s: string, sep: char): (parts: seq<string>)
    ensures |parts| >= 1
    decreases |s|
  {
    if s == [] then [[]]
    else if s[|s| - 1] == sep then Split(s[..|s| - 1], sep) + [[]]
    else ExtendLast(Split(s[..|s| - 1], sep), s[|s| - 1])
  }

  /** strings.Join with a one-character separator. */
  function Join(parts: seq<string>, sep: char): string
    requires |parts| >= 1
  {
    if |parts| == 1 then parts[0] else Join(parts[..|parts| - 1], sep) + [sep] + parts[|parts| - 1]
  }

  /** Splitting one character more: a separator opens a new field. */
  lemma SplitSnocSeparator(s: string, sep: char)
    ensures Split(s + [sep], sep) == Split(s, sep) + [[]]
  {
    assert (s + [sep])[..|s|] == s;
  }

  /** Splitting one character more: anything but the separator extends the last field. */
  lemma SplitSnocOther(s: string, sep: char, c: char)
    requires c != sep
    ensures Split(s + [c], sep) == ExtendLast(Split(s, sep), c)
  {
    assert (s + [c])[..|s|] == s;
  }

  lemma JoinSnoc(parts: seq<string>, p: string, sep: char)
    requires |parts| >= 1
    ensures Join(parts + [p], sep) == Join(parts, sep) + [sep] + p
  {
    assert (parts + [p])[..|parts|] == parts;
  }

  lemma JoinExtendLast(parts: seq<string>, c: char, sep: char)
    requires |parts| >= 1
    ensures Join(ExtendLast(parts, c), sep) == Join(parts, sep) + [c]
  {
    var n := |parts| - 1;
    if n > 0 {
      var init := parts[..n];
      JoinSnoc(init, parts[n] + [c], sep);
      JoinSnoc(init, parts[n], sep);
      assert parts == init + [parts[n]];
    }
  }

  lemma {:induction false} SplitHasNoSeparator(s: string, sep: char)
    ensures forall p :: p in Split(s, sep) ==> sep !in p
  {
    if s != [] {
      SplitHasNoSeparator(s[..|s| - 1], sep);
    }
  }

  /** Joining the fields back with the separator restores the input. */
  lemma {:induction false} JoinSplit(s: string, sep: char)
    ensures Join(Split(s, sep), sep) == s
  {
    if s != [] {
      var s' := s[..|s| - 1];
      var c := s[|s| - 1];
      assert s == s' + [c];
      JoinSplit(s', sep);
      if c == sep {
        SplitSnocSeparator(s', sep);
        JoinSnoc(Split(s', sep), [], sep);
      } else {
        SplitSnocOther(s', sep, c);
        JoinExtendLast(Split(s', sep), c, sep);
      }
    }
  }

  lemma {:induction false} SplitWithoutSeparator(p: string, sep: char)
    requires sep !in p
    ensures Split(p, sep) == [p]
  {
    if p != [] {
      var p' := p[..|p| - 1];
      assert p == p' + [p[|p| - 1]];
      SplitWithoutSeparator(p', sep);
      SplitSnocOther(p', sep, p[|p| - 1]);
    }
  }

  lemma {:induction false} SplitAppendField(a: string, sep: char, b: string)
    requires sep !in b
    ensures Split(a + [sep] + b, sep) == Split(a, sep) + [b]
    decreases |b|
  {
    if b == [] {
      assert a + [sep] + b == a + [sep];
      SplitSnocSeparator(a, sep);
    } else {
      var b' := b[..|b| - 1];
      var c := b[|b| - 1];
      SplitAppendField(a, sep, b');
      assert a + [sep] + b == (a + [sep] + b') + [c];
      SplitSnocOther(a + [sep] + b', sep, c);
      assert b == b' + [c];
      ExtendLastConcat(Split(a, sep), [b'], c);
    }
  }

  /** Splitting fields that hold no separator gives back exactly those fields. */
  lemma {:induction false} SplitJoin(parts: seq<string>, sep: char)
    requires |parts| >= 1
    requires forall p :: p in parts ==> sep !in p
    ensures Split(Join(parts, sep), sep) == parts
  {
    if |parts| == 1 {
      SplitWithoutSeparator(parts[0], sep);
    } else {
      var init := parts[..|parts| - 1];
      SplitJoin(init, sep);
      SplitAppendField(Join(init, sep), sep, parts[|parts| - 1]);
      assert parts == init + [parts[|parts| - 1]];
    }
  }

  /** A separator splits the input in two: the fields of each side, one after the other. */
  lemma {:induction false} SplitConcat(a: string, sep: char, b: string)
    ensures Split(a + [sep] + b, sep) == Split(a, sep) + Split(b, sep)
    decreases |b|
  {
    if b == [] {
      assert a + [sep] + b == a + [sep];
      SplitSnocSeparator(a, sep);
    } else {
      var b' := b[..|b| - 1];
      var c := b[|b| - 1];
      var left := a + [sep] + b';
      assert a + [sep] + b == left + [c];
      assert b == b' + [c];
      if c == sep {
        calc {
          Split(left + [c], sep);
          { SplitSnocSeparator(left, sep); }
          Split(left, sep) + [[]];
          { SplitConcat(a, sep, b'); }
          (Split(a, sep) + Split(b', sep)) + [[]];
          Split(a, sep) + (Split(b', sep) + [[]]);
          { SplitSnocSeparator(b', sep); }
          Split(a, sep) + Split(b' + [c], sep);
        }
      } else {
        calc {
          Split(left + [c], sep);
          { SplitSnocOther(left, sep, c); }
          ExtendLast(Split(left, sep), c);
          { SplitConcat(a, sep, b'); }
          ExtendLast(Split(a, sep) + Split(b', sep), c);
          { ExtendLastConcat(Split(a, sep), Split(b', sep), c); }
          Split(a, sep) + ExtendLast(Split(b', sep), c);
          { SplitSnocOther(b', sep, c); }
          Split(a, sep) + Split(b' + [c], sep);
        }
      }
    }
  }

  /** Extending the last field of a concatenation extends the last field of its right part. */
  lemma ExtendLastConcat(left: seq<string>, right: seq<string>, c: char)
    requires |right| >= 1
    ensures ExtendLast(left + right, c) == left + ExtendLast(right, c)
  {
    assert (left + right)[..|left + right| - 1] == left + right[..|right| - 1];
  }

  /** The fields that are not empty, in their original order. */
  function NonEmpty(parts: seq<string>): (r: seq<string>)
    ensures forall p :: p in r ==> p != [] && p in parts
    ensures |r| <= |parts|
  {
    if parts == [] then []
    else
      var init := NonEmpty(parts[..|parts| - 1]);
      if parts[|parts| - 1] == [] then init else init + [parts[|parts| - 1]]
  }

  lemma {:induction false} NonEmptyKeepsEveryField(parts: seq<string>, p: string)
    requires p in parts && p != []
    ensures p in NonEmpty(parts)
  {
    var n := |parts|;
    if parts[n - 1] != p {
      assert p in parts[..n - 1];
      NonEmptyKeepsEveryField(parts[..n - 1], p);
    }
  }

  /** Dropping empty fields commutes with concatenation. */
  lemma {:induction false} NonEmptyConcat(x: seq<string>, y: seq<string>)
    ensures NonEmpty(x + y) == NonEmpty(x) + NonEmpty(y)
    decreases |y|
  {
    if y == [] {
      assert x + y == x;
    } else {
      var y' := y[..|y| - 1];
      NonEmptyConcat(x, y');
      assert (x + y)[..|x + y| - 1] == x + y';
    }
  }

  predicate HasPrefix(s: string, prefix: string)
  {
    |prefix| <= |s| && s[..|prefix|] == prefix
  }

  /** strings.TrimPrefix. */
  function TrimPrefix(s: string, prefix: string): (r: string)
    ensures HasPrefix(s, prefix) ==> prefix + r == s
    ensures !HasPrefix(s, prefix) ==> r == s
  {
    if HasPrefix(s, prefix) then s[|prefix|..] else s
  }

  lemma TrimPrefixOfConcat(prefix: string, rest: string)
    ensures HasPrefix(prefix + rest, prefix)
    ensures TrimPrefix(prefix + rest, prefix) == rest
  {
    assert (prefix + rest)[..|prefix|] == prefix;
  }

  /** strings.Replace(s, pattern, replacement, 1): only the first occurrence is replaced. */
  function ReplaceFirst(s: string, pattern: string, replacement: string): string
    decreases |s|
  {
    if pattern == [] then replacement + s
    else if |s| < |pattern| then s
    else if s[..|pattern|] == pattern then replacement + s[|pattern|..]
    else [s[0]] + ReplaceFirst(s[1..], pattern, replacement)
  }

  /**
   * When the pattern's first character does not occur in a prefix, the first
   * occurrence is the one right after that prefix.
   */
  lemma ReplaceFirstSkips(s: string, pattern: string, replacement: string)
    requires pattern != [] && |s| >= |pattern| && s[0] != pattern[0]
    ensures ReplaceFirst(s, pattern, replacement) == [s[0]] + ReplaceFirst(s[1..], pattern, replacement)
  {
    assert s[..|pattern|][0] == s[0];
  }

  lemma {:induction false} ReplaceAfterPrefix(p: string, pattern: string, rest: string, replacement: string)
    requires pattern != []
    requires forall i :: 0 <= i < |p| ==> p[i] != pattern[0]
    ensures ReplaceFirst(p + pattern + rest, pattern, replacement) == p + replacement + rest
  {
    var s := p + pattern + rest;
    if p == [] {
      assert s == pattern + rest;
      assert s[..|pattern|] == pattern;
      assert s[|pattern|..] == rest;
    } else {
      var tail := p[1..] + pattern + rest;
      assert s[0] == p[0] && s[1..] == tail;
      ReplaceFirstSkips(s, pattern, replacement);
      ReplaceAfterPrefix(p[1..], pattern, rest, replacement);
      assert p == [p[0]] + p[1..];
    }
  }

  /**
   * Once the pattern occurs, replacing its first occurrence is injective in
   * the replacement: the text around that occurrence is the same either way.
   */
  lemma {:induction false} ReplaceFirstInjective(p: string, pattern: string, q: string, a: string, b: string)
    ensures ReplaceFirst(p + pattern + q, pattern, a) == ReplaceFirst(p + pattern + q, pattern, b) ==> a == b
    decreases |p|
  {
    var s := p + pattern + q;
    var ra := ReplaceFirst(s, pattern, a);
    var rb := ReplaceFirst(s, pattern, b);
    if ra == rb && pattern != [] && s[..|pattern|] != pattern {
      assert s[1..] == p[1..] + pattern + q;
      assert ra[1..] == ReplaceFirst(s[1..], pattern, a);
      assert rb[1..] == ReplaceFirst(s[1..], pattern, b);
      ReplaceFirstInjective(p[1..], pattern, q, a, b);
    } else if ra == rb && pattern != [] {
      assert |ra| == |a| + |s| - |pattern| && |rb| == |b| + |s| - |pattern|;
      assert ra[..|a|] == a && rb[..|b|] == b;
    } else if ra == rb {
      assert ra[..|a|] == a && rb[..|b|] == b;
    }
  }

  /** A text without the pattern's first character is left as it is. */
  lemma {:induction false} ReplaceFirstAbsent(s: string, pattern: string, replacement: string)
    requires pattern != []
    requires forall i :: 0 <= i < |s| ==> s[i] != pattern[0]
    ensures ReplaceFirst(s, pattern, replacement) == s
    decreases |s|
  {
    if |s| >= |pattern| {
      ReplaceFirstSkips(s, pattern, replacement);
      ReplaceFirstAbsent(s[1..], pattern, replacement);
    }
  }
}
