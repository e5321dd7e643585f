/**
 * Text and sequence helpers shared by the whole model: an Option type,
 * the ASCII character classes that stand for Python's `\d`, `\s` and `\w`,
 * and the string operations the bot uses (`strip`, `split`, `join`,
 * `replace`, `in`, `lower`, `str(int)`, `int(str)`, `dict.fromkeys`).
 */
module Text {

  datatype Option<T> = None | Some(value: T)

  // ---------------------------------------------------------------------
  // Character classes (ASCII subset of Python's Unicode classes)

  predicate IsDigit(c: char) { '0' <= c <= '9' }

  /** The ASCII part of Python's whitespace: space, \t \n \v \f \r and the separators 0x1C-0x1F. */
  predicate IsSpace(c: char) { c == ' ' || ('\t' <= c <= '\r') || ('\U{1C}' <= c <= '\U{1F}') }

  /** Regex `\w`: letters, digits and underscore. */
  predicate IsWordChar(c: char) { ('a' <= c <= 'z') || ('A' <= c <= 'Z') || IsDigit(c) || c == '_' }

  predicate AllDigits(s: string) { forall i :: 0 <= i < |s| ==> IsDigit(s[i]) }

  /** Every character is 7-bit ASCII. */
  predicate IsAscii(s: string) { forall i :: 0 <= i < |s| ==> (s[i] as int) < 128 }

  lemma AsciiConcat(a: string, b: string)
    requires IsAscii(a) && IsAscii(b)
    ensures IsAscii(a + b)
  {
    forall i | 0 <= i < |a + b| ensures ((a + b)[i] as int) < 128 {
      if i >= |a| { assert (a + b)[i] == b[i - |a|]; }
    }
  }

  /** The ASCII subset of Python's `str.isdigit()`: non-empty and every character one of 0-9. */
  predicate IsDigitString(s: string) { |s| > 0 && AllDigits(s) }

  function LowerChar(c: char): char { if 'A' <= c <= 'Z' then (c as int + 32) as char else c }

  /** Python's `str.lower()` on ASCII letters. */
  function ToLower(s: string): (r: string)
    ensures |r| == |s|
    ensures forall i :: 0 <= i < |s| ==> r[i] == LowerChar(s[i])
  {
    seq(|s|, i requires 0 <= i < |s| => LowerChar(s[i]))
  }

  // ---------------------------------------------------------------------
  // Substrings

  /** Python's `sub in s`. */
  predicate Contains(s: string, sub: string)
    decreases |s|
  {
    sub <= s || (|s| > 0 && Contains(s[1..], sub))
  }

  /** `s` holds `lit` starting at index `i`. */
  predicate StartsAt(s: string, i: nat, lit: string)
  {
    i + |lit| <= |s| && s[i..i + |lit|] == lit
  }

  /** Python's `s.replace(pat, rep)`: every non-overlapping occurrence, left to right. */
  function Replace(s: string, pat: string, rep: string): string
    requires pat != []
    decreases |s|
  {
    if pat <= s then rep + Replace(s[|pat|..], pat, rep)
    else if s == [] then []
    else [s[0]] + Replace(s[1..], pat, rep)
  }

  lemma {:induction false} ReplaceAbsent(s: string, pat: string, rep: string)
    requires pat != [] && !Contains(s, pat)
    ensures Replace(s, pat, rep) == s
  {
    if s != [] {
      ReplaceAbsent(s[1..], pat, rep);
      assert [s[0]] + s[1..] == s;
    }
  }

  /** A string none of whose characters is `c` does not contain any text starting with `c`. */
  lemma {:induction false} NotContainsWhenHeadAbsent(s: string, sub: string)
    requires sub != [] && sub[0] !in s
    ensures !Contains(s, sub)
  {
    if s != [] {
      assert s[0] in s;
      assert forall x :: x in s[1..] ==> x in s;
      NotContainsWhenHeadAbsent(s[1..], sub);
    }
  }

  // ---------------------------------------------------------------------
  // strip, split, join

  function TrimLeft(s: string): (r: string)
    ensures |r| <= |s|
    ensures r == [] || !IsSpace(r[0])
    decreases |s|
  {
    if s != [] && IsSpace(s[0]) then TrimLeft(s[1..]) else s
  }

  function TrimRight(s: string): (r: string)
    ensures |r| <= |s|
    ensures r == [] || !IsSpace(r[|r| - 1])
    decreases |s|
  {
    if s != [] && IsSpace(s[|s| - 1]) then TrimRight(s[..|s| - 1]) else s
  }

  /** Python's `str.strip()`, for the ASCII whitespace of IsSpace. */
  function Strip(s: string): string { TrimRight(TrimLeft(s)) }

  lemma StripUnchanged(s: string)
    requires s == [] || (!IsSpace(s[0]) && !IsSpace(s[|s| - 1]))
    ensures Strip(s) == s
  {
  }

  /** Python's `s.split(c)` for a one-character separator: always at least one piece. */
  function Split(s: string, c: char): (r: seq<string>)
    ensures |r| >= 1
    decreases |s|
  {
    if s == [] then [[]]
    else
      var rest := Split(s[1..], c);
      if s[0] == c then [[]] + rest else [[s[0]] + rest[0]] + rest[1..]
  }

  lemma {:induction false} SplitPrefixFree(a: string, t: string, c: char)
    requires c !in a
    ensures Split(a + t, c) == [a + Split(t, c)[0]] + Split(t, c)[1..]
    decreases |a|
  {
    if a != [] {
      assert (a + t)[1..] == a[1..] + t;
      assert (a + t)[0] == a[0];
      assert a[0] in a;
      assert forall x :: x in a[1..] ==> x in a;
      SplitPrefixFree(a[1..], t, c);
      var rest := Split(a[1..] + t, c);
      assert Split(a + t, c) == [[a[0]] + rest[0]] + rest[1..];
      assert rest[0] == a[1..] + Split(t, c)[0];
      assert rest[1..] == Split(t, c)[1..];
      assert a == [a[0]] + a[1..];
      assert [a[0]] + (a[1..] + Split(t, c)[0]) == a + Split(t, c)[0];
    } else {
      assert a + t == t;
      assert a + Split(t, c)[0] == Split(t, c)[0];
    }
  }

  /** Python's `sep.join(parts)`. */
  function Join(parts: seq<string>, sep: string): string
    decreases |parts|
  {
    if |parts| == 0 then []
    else if |parts| == 1 then parts[0]
    else parts[0] + sep + Join(parts[1..], sep)
  }

  /** Splitting a joined text on its one-character separator gives the parts back. */
  lemma {:induction false} SplitJoin(parts: seq<string>, c: char)
    requires |parts| >= 1
    requires forall i :: 0 <= i < |parts| ==> c !in parts[i]
    ensures Split(Join(parts, [c]), c) == parts
    decreases |parts|
  {
    if |parts| == 1 {
      SplitPrefixFree(parts[0], [], c);
      assert parts[0] + [] == parts[0];
    } else {
      var tail := Join(parts[1..], [c]);
      SplitJoin(parts[1..], c);
      assert Join(parts, [c]) == parts[0] + ([c] + tail);
      SplitPrefixFree(parts[0], [c] + tail, c);
      assert ([c] + tail)[1..] == tail;
      assert ([c] + tail)[0] == c;
      assert Split([c] + tail, c) == [[]] + parts[1..];
      assert parts[0] + [] == parts[0];
      assert parts == [parts[0]] + parts[1..];
    }
  }

  /** Two pieces joined by a separator neither holds split back into the two pieces. */
  lemma SplitPair(a: string, b: string, c: char)
    requires c !in a && c !in b
    ensures Split(a + [c] + b, c) == [a, b]
  {
    var parts := [a, b];
    assert parts[1..] == [b];
    assert Join(parts, [c]) == a + [c] + b;
    forall k | 0 <= k < |parts| ensures c !in parts[k] {
      if k == 0 { assert parts[k] == a; } else { assert parts[k] == b; }
    }
    SplitJoin(parts, c);
  }

  /** Length of the leading run of non-space characters. */
  function TokenLength(s: string): (k: nat)
    ensures k <= |s|
    ensures forall i :: 0 <= i < k ==> !IsSpace(s[i])
    ensures k == |s| || IsSpace(s[k])
    decreases |s|
  {
    if s == [] || IsSpace(s[0]) then 0 else 1 + TokenLength(s[1..])
  }

  /** Python's `s.split()` with no argument, for the ASCII whitespace of IsSpace: no empty tokens. */
  function Words(s: string): (r: seq<string>)
    ensures forall i :: 0 <= i < |r| ==> r[i] != []
    decreases |s|
  {
    var t := TrimLeft(s);
    if t == [] then []
    else
      var k := TokenLength(t);
      [t[..k]] + Words(t[k..])
  }

  // ---------------------------------------------------------------------
  // Numbers as text

  function DigitValue(c: char): nat requires IsDigit(c) { c as int - '0' as int }

  function DigitChar(d: nat): (c: char)
    requires d < 10
    ensures IsDigit(c) && DigitValue(c) == d
  {
    ('0' as int + d) as char
  }

  /** The value of a run of decimal digits, as Python's `int()` reads it. */
  function DigitsValue(s: string): nat
    requires AllDigits(s)
    decreases |s|
  {
    if s == [] then 0 else DigitsValue(s[..|s| - 1]) * 10 + DigitValue(s[|s| - 1])
  }

  /** Python's `str(n)` for a non-negative integer: `int()` reads it back. */
  function NatToString(n: nat): (r: string)
    ensures IsDigitString(r) && DigitsValue(r) == n
    ensures r[0] != '0' || n == 0
    decreases n
  {
    if n < 10 then [DigitChar(n)]
    else
      var r := NatToString(n / 10) + [DigitChar(n % 10)];
      assert r[..|r| - 1] == NatToString(n / 10);
      r
  }

  /** Python's `str(i)`. */
  function IntToString(i: int): string
  {
    if i < 0 then "-" + NatToString(-i) else NatToString(i)
  }

  /** Python's `int(s)` on ASCII text: surrounding whitespace, one optional sign, digits. */
  function ParseInt(s: string): (r: Option<int>)
    ensures r.Some? ==> exists d :: IsDigitString(d) && (r.value == DigitsValue(d) || r.value == -(DigitsValue(d) as int))
  {
    var t := Strip(s);
    if t != [] && (t[0] == '-' || t[0] == '+') then
      (if IsDigitString(t[1..]) then Some(if t[0] == '-' then -(DigitsValue(t[1..]) as int) else DigitsValue(t[1..])) else None)
    else if IsDigitString(t) then Some(DigitsValue(t))
    else None
  }

  lemma IntToStringShape(i: int)
    ensures !IsSpace(IntToString(i)[0]) && !IsSpace(IntToString(i)[|IntToString(i)| - 1])
    ensures forall k :: 0 <= k < |IntToString(i)| ==> IsDigit(IntToString(i)[k]) || (k == 0 && i < 0)
  {
  }

  /** `int(str(i)) == i`. */
  lemma ParseIntToString(i: int)
    ensures ParseInt(IntToString(i)) == Some(i)
  {
    IntToStringShape(i);
    var s := IntToString(i);
    StripUnchanged(s);
    if i < 0 {
      assert s[1..] == NatToString(-i);
    }
  }

  // ---------------------------------------------------------------------
  // Sequences

  /** Order-preserving removal of repeats: Python's `list(dict.fromkeys(s))`. */
  function Dedup<T(==, !new)>(s: seq<T>): (r: seq<T>)
    ensures forall x :: x in r <==> x in s
    ensures forall i, j :: 0 <= i < j < |r| ==> r[i] != r[j]
    decreases |s|
  {
    if s == [] then []
    else
      var d := Dedup(s[..|s| - 1]);
      if s[|s| - 1] in d then d else d + [s[|s| - 1]]
  }

  /** The least index in [i, n) at which `p` holds, or n when it holds at none. */
  function FirstWhere(p: nat -> bool, i: nat, n: nat): (k: nat)
    requires i <= n
    ensures i <= k <= n && (k < n ==> p(k))
    ensures forall j :: i <= j < k ==> !p(j)
    decreases n - i
  {
    if i == n || p(i) then i else FirstWhere(p, i + 1, n)
  }

  /** Index of the first occurrence of `x` in `s`. */
  function FirstIndex<T(==)>(s: seq<T>, x: T): (k: nat)
    requires x in s
    ensures k < |s| && s[k] == x && x !in s[..k]
    decreases |s|
  {
    if s[0] == x then 0
    else
      var k := 1 + FirstIndex(s[1..], x);
      assert s[..k] == [s[0]] + s[1..][..k - 1];
      k
  }

  lemma {:induction false} FirstIndexPrefix<T>(s: seq<T>, n: nat, x: T)
    requires n <= |s| && x in s[..n]
    ensures FirstIndex(s, x) == FirstIndex(s[..n], x)
  {
    var k := FirstIndex(s[..n], x);
    assert s[..k] == s[..n][..k];
  }

  /** Dedup keeps first occurrences in the order they first appear. */
  lemma {:induction false} DedupOrder<T(!new)>(s: seq<T>)
    ensures forall i, j :: 0 <= i < j < |Dedup(s)| ==> FirstIndex(s, Dedup(s)[i]) < FirstIndex(s, Dedup(s)[j])
    decreases |s|
  {
    if s != [] {
      var n := |s| - 1;
      var p := s[..n];
      DedupOrder(p);
      var d := Dedup(p);
      forall x | x in d ensures FirstIndex(s, x) == FirstIndex(p, x) && FirstIndex(s, x) < n {
        FirstIndexPrefix(s, n, x);
      }
      if s[n] !in d {
        assert s[n] !in p;
        assert s[..n] == p;
      }
    }
  }

  function MapSeq<A, B>(f: A -> B, s: seq<A>): (r: seq<B>)
    ensures |r| == |s| && forall i :: 0 <= i < |s| ==> r[i] == f(s[i])
  {
    seq(|s|, i requires 0 <= i < |s| => f(s[i]))
  }

  // ---------------------------------------------------------------------
  // Counting characters, and replacement facts that follow from counts

  /** The number of occurrences of `c` in `s`. */
  function Count(s: string, c: char): nat
    decreases |s|
  {
    if s == [] then 0 else (if s[0] == c then 1 else 0) + Count(s[1..], c)
  }

  lemma {:induction false} CountConcat(a: string, b: string, c: char)
    ensures Count(a + b, c) == Count(a, c) + Count(b, c)
    decreases |a|
  {
    if a != [] {
      assert (a + b)[1..] == a[1..] + b;
      CountConcat(a[1..], b, c);
    } else {
      assert a + b == b;
    }
  }

  lemma {:induction false} CountZero(s: string, c: char)
    ensures Count(s, c) == 0 <==> c !in s
    decreases |s|
  {
    if s != [] {
      CountZero(s[1..], c);
      assert s == [s[0]] + s[1..];
    }
  }

  /** A text holds at least as many `c` as any text it contains. */
  lemma {:induction false} ContainsCount(s: string, sub: string, c: char)
    requires Contains(s, sub)
    ensures Count(s, c) >= Count(sub, c)
    decreases |s|
  {
    if sub <= s {
      assert s == sub + s[|sub|..];
      CountConcat(sub, s[|sub|..], c);
    } else {
      ContainsCount(s[1..], sub, c);
      assert s == [s[0]] + s[1..];
      CountConcat([s[0]], s[1..], c);
    }
  }

  /** A text with fewer dots than the pattern holds no occurrence of it, so the replacement leaves it as it is. */
  lemma ReplaceFewerDots(s: string, pat: string, rep: string)
    requires pat != [] && Count(s, '.') < Count(pat, '.')
    ensures Replace(s, pat, rep) == s
  {
    if Contains(s, pat) { ContainsCount(s, pat, '.'); }
    ReplaceAbsent(s, pat, rep);
  }

  /** Replacement does not touch a prefix lacking the pattern's first character. */
  lemma {:induction false} ReplaceKeepsPrefix(a: string, b: string, pat: string, rep: string)
    requires pat != [] && pat[0] !in a
    ensures Replace(a + b, pat, rep) == a + Replace(b, pat, rep)
    decreases |a|
  {
    if a != [] {
      var t := a[1..];
      assert a[0] in a && (a + b)[0] == a[0];
      assert !(pat <= a + b);
      assert (a + b)[1..] == t + b;
      assert pat[0] !in t by {
        assert forall x :: x in t ==> x in a;
      }
      ReplaceKeepsPrefix(t, b, pat, rep);
      assert Replace(a + b, pat, rep) == [a[0]] + Replace(t + b, pat, rep);
      assert [a[0]] + (t + Replace(b, pat, rep)) == a + Replace(b, pat, rep);
    } else {
      assert a + b == b;
    }
  }

  lemma ReplaceAtStart(pat: string, b: string, rep: string)
    requires pat != []
    ensures Replace(pat + b, pat, rep) == rep + Replace(b, pat, rep)
  {
    assert pat <= pat + b;
    assert (pat + b)[|pat|..] == b;
  }

  /** A pattern whose first character is absent from `a`, and which has more dots than `b`, does not occur in `a + b`. */
  lemma ReplaceAbsentSplit(a: string, b: string, pat: string, rep: string)
    requires pat != [] && pat[0] !in a && Count(b, '.') < Count(pat, '.')
    ensures Replace(a + b, pat, rep) == a + b
  {
    ReplaceKeepsPrefix(a, b, pat, rep);
    ReplaceFewerDots(b, pat, rep);
  }

  /** One replacement step on "<scheme><host><path>" when the host is the pattern. */
  lemma ReplaceHostStep(scheme: string, host: string, path: string, canon: string)
    requires host != [] && host[0] !in scheme && Count(path, '.') < Count(host, '.')
    ensures Replace(scheme + host + path, host, canon) == scheme + canon + path
  {
    assert scheme + host + path == scheme + (host + path);
    ReplaceKeepsPrefix(scheme, host + path, host, canon);
    ReplaceAtStart(host, path, canon);
    ReplaceFewerDots(path, host, canon);
    assert scheme + (canon + path) == scheme + canon + path;
  }

  /** Moving a split point of a three-part concatenation. */
  lemma Regroup3(scheme: string, h1: string, h2: string, path: string)
    ensures scheme + (h1 + h2) + path == (scheme + h1) + (h2 + path)
  {
  }

  // ---------------------------------------------------------------------
  // Reading back a comma-separated list of integers

  /** Parse every piece as an integer; None as soon as one is not. */
  function ParseAll(pieces: seq<string>): (r: Option<seq<int>>)
    ensures r.Some? ==> |r.value| == |pieces|
    decreases |pieces|
  {
    if pieces == [] then Some([])
    else
      match ParseInt(pieces[0])
      case None => None
      case Some(v) =>
        match ParseAll(pieces[1..])
        case None => None
        case Some(vs) => Some([v] + vs)
  }

  function LeadSpace(i: int): string
  {
    " " + IntToString(i)
  }

  /** Putting text in front of a join puts it in front of the first part. */
  lemma JoinPrefixFirst(x: string, a: string, rest: seq<string>, sep: string)
    ensures x + Join([a] + rest, sep) == Join([x + a] + rest, sep)
  {
    if |rest| > 0 {
      assert ([a] + rest)[1..] == rest;
      assert ([x + a] + rest)[1..] == rest;
    }
  }

  /** ", " between the numbers is "," followed by a space at the head of every later number. */
  lemma {:induction false} JoinCommaSpace(numbers: seq<int>)
    requires |numbers| >= 1
    ensures Join(MapSeq(IntToString, numbers), ", ") ==
      Join([IntToString(numbers[0])] + MapSeq(LeadSpace, numbers[1..]), ",")
    decreases |numbers|
  {
    var parts := MapSeq(IntToString, numbers);
    if |numbers| > 1 {
      var tail := numbers[1..];
      JoinCommaSpace(tail);
      assert MapSeq(IntToString, tail) == parts[1..];
      var later := MapSeq(LeadSpace, tail[1..]);
      assert MapSeq(LeadSpace, tail) == [LeadSpace(tail[0])] + later;
      JoinPrefixFirst(" ", IntToString(tail[0]), later, ",");
      assert ([IntToString(numbers[0])] + MapSeq(LeadSpace, tail))[1..] == MapSeq(LeadSpace, tail);
    }
  }

  lemma StripLeadSpace(s: string)
    ensures Strip(" " + s) == Strip(s)
  {
    assert (" " + s)[1..] == s;
  }

  lemma ParseLeadSpace(i: int)
    ensures ParseInt(LeadSpace(i)) == Some(i)
  {
    StripLeadSpace(IntToString(i));
    ParseIntToString(i);
  }

  lemma {:induction false} ParseAllLeadSpace(numbers: seq<int>)
    ensures ParseAll(MapSeq(LeadSpace, numbers)) == Some(numbers)
    decreases |numbers|
  {
    if numbers != [] {
      var pieces := MapSeq(LeadSpace, numbers);
      assert pieces[1..] == MapSeq(LeadSpace, numbers[1..]);
      ParseAllLeadSpace(numbers[1..]);
      ParseLeadSpace(numbers[0]);
      assert numbers == [numbers[0]] + numbers[1..];
    }
  }

  lemma NoCommaInNumber(i: int)
    ensures ',' !in IntToString(i) && ',' !in LeadSpace(i)
  {
    IntToStringShape(i);
  }

  /**
   * A list of integers joined with ", " (as str.join and json.dumps write it)
   * is not empty, and splitting it on ',' and parsing every piece gives the
   * integers back.
   */
  lemma CommaListReadBack(numbers: seq<int>)
    requires numbers != []
    ensures Join(MapSeq(IntToString, numbers), ", ") != []
    ensures ParseAll(Split(Join(MapSeq(IntToString, numbers), ", "), ',')) == Some(numbers)
  {
    JoinCommaSpace(numbers);
    var first := IntToString(numbers[0]);
    var pieces := [first] + MapSeq(LeadSpace, numbers[1..]);
    assert |first| > 0;
    forall k | 0 <= k < |pieces| ensures ',' !in pieces[k] {
      if k == 0 { NoCommaInNumber(numbers[0]); } else { NoCommaInNumber(numbers[k]); }
    }
    SplitJoin(pieces, ',');
    ParseAllLeadSpace(numbers[1..]);
    ParseIntToString(numbers[0]);
    assert pieces[1..] == MapSeq(LeadSpace, numbers[1..]);
    assert numbers == [numbers[0]] + numbers[1..];
  }
}
