/**
 * The daily roll history of Psyduck/roll_logger.py: a per-day table of how
 * often each number was rolled, rendered into the description of one
 * "Roll History" embed and read back from it when the bot restarts.
 *
 * The Python dict `roll_counts` keeps its keys in insertion order, and that
 * order decides how equal counts are listed, so the table is modelled as an
 * association list with distinct keys rather than as a map.
 */
module RollLog {
  import opened Text

  const Placeholder: string := "No rolls yet today."
  const EmbedTitle: string := "Roll History"

  /** An insertion-ordered dict from number to count. */
  type Counts = seq<(int, int)>

  // ---------------------------------------------------------------------
  // The dict operations

  /** `d.get(k)`: the value stored under `k`, if any. */
  function Find(d: Counts, k: int): Option<int>
    decreases |d|
  {
    if d == [] then None else if d[0].0 == k then Some(d[0].1) else Find(d[1..], k)
  }

  /** `d.get(k, 0)`. */
  function Get(d: Counts, k: int): int
  {
    if Find(d, k).Some? then Find(d, k).value else 0
  }

  /** No key occurs twice. */
  predicate DistinctKeys(d: Counts)
    decreases |d|
  {
    d == [] || (Find(d[1..], d[0].0).None? && DistinctKeys(d[1..]))
  }

  /** `d[k] = v`: an existing key keeps its place, a new one goes last. */
  function Put(d: Counts, k: int, v: int): (r: Counts)
    ensures Find(r, k) == Some(v)
    ensures forall j :: j != k ==> Find(r, j) == Find(d, j)
    ensures Find(d, k).None? ==> r == d + [(k, v)]
    ensures Find(d, k).Some? ==> |r| == |d| && forall i :: 0 <= i < |d| ==> r[i].0 == d[i].0
    ensures DistinctKeys(d) ==> DistinctKeys(r)
    decreases |d|
  {
    if d == [] then [(k, v)]
    else if d[0].0 == k then
      var r := [(k, v)] + d[1..];
      assert r[1..] == d[1..];
      r
    else
      var rest := Put(d[1..], k, v);
      var r := [d[0]] + rest;
      assert r[1..] == rest;
      assert Find(d, k).None? ==> r == d + [(k, v)] by {
        if Find(d, k).None? { assert d == [d[0]] + d[1..]; }
      }
      assert Find(d, k).Some? ==> forall i :: 0 <= i < |d| ==> r[i].0 == d[i].0 by {
        if Find(d, k).Some? {
          forall i | 0 <= i < |d| ensures r[i].0 == d[i].0 {
            if i > 0 { assert r[i] == rest[i - 1] && d[i] == d[1..][i - 1]; }
          }
        }
      }
      r
  }

  lemma {:induction false} FindAppend(d: Counts, e: (int, int), k: int)
    ensures Find(d + [e], k) == if Find(d, k).Some? then Find(d, k) else if e.0 == k then Some(e.1) else None
    decreases |d|
  {
    if d == [] {
      assert d + [e] == [e];
    } else {
      assert (d + [e])[1..] == d[1..] + [e];
      FindAppend(d[1..], e, k);
    }
  }

  // ---------------------------------------------------------------------
  // log_roll: the counting loop

  /** Every count rises by the number's multiplicity in `numbers`. */
  ghost predicate CountsRise(before: Counts, numbers: seq<int>, after: Counts)
  {
    forall k :: Get(after, k) == Get(before, k) + multiset(numbers)[k]
  }

  /** The keys of `after` are those of `before` and the rolled numbers. */
  ghost predicate KeysGained(before: Counts, numbers: seq<int>, after: Counts)
  {
    forall k :: Find(after, k).Some? <==> Find(before, k).Some? || k in numbers
  }

  /** The keys of `before` keep their places; new keys follow in the order of their first roll. */
  ghost predicate KeysInOrder(before: Counts, numbers: seq<int>, after: Counts)
  {
    && |before| <= |after|
    && (forall i :: 0 <= i < |before| ==> after[i].0 == before[i].0)
    && (forall i :: |before| <= i < |after| ==> after[i].0 in numbers)
    && (forall i, j :: |before| <= i < j < |after| ==>
          after[i].0 in numbers && after[j].0 in numbers &&
          FirstIndex(numbers, after[i].0) < FirstIndex(numbers, after[j].0))
  }

  /**
   * `after` is `before` with one more roll counted for each entry of
   * `numbers`: every count rises by the number's multiplicity, the keys
   * already there keep their places, and the new keys follow in the order of
   * their first roll, as dict insertion leaves them.
   */
  ghost predicate Counted(before: Counts, numbers: seq<int>, after: Counts)
  {
    && CountsRise(before, numbers, after)
    && KeysGained(before, numbers, after)
    && KeysInOrder(before, numbers, after)
    && (DistinctKeys(before) ==> DistinctKeys(after))
  }

  lemma RiseStep(before: Counts, numbers: seq<int>, r: Counts, n: int)
    requires CountsRise(before, numbers, r)
    ensures CountsRise(before, numbers + [n], Put(r, n, Get(r, n) + 1))
  {
    assert multiset(numbers + [n]) == multiset(numbers) + multiset{n};
  }

  lemma KeysGainedStep(before: Counts, numbers: seq<int>, r: Counts, n: int)
    requires KeysGained(before, numbers, r)
    ensures KeysGained(before, numbers + [n], Put(r, n, Get(r, n) + 1))
  {
    forall k ensures k in numbers + [n] <==> k in numbers || k == n {
    }
  }

  lemma KeysInOrderStep(before: Counts, numbers: seq<int>, r: Counts, n: int)
    requires KeysInOrder(before, numbers, r)
    requires Find(r, n).None? ==> n !in numbers
    ensures KeysInOrder(before, numbers + [n], Put(r, n, Get(r, n) + 1))
  {
    var p := numbers + [n];
    var r' := Put(r, n, Get(r, n) + 1);
    assert p[..|numbers|] == numbers;
    forall x | x in numbers ensures x in p && FirstIndex(p, x) == FirstIndex(numbers, x) < |numbers| {
      FirstIndexPrefix(p, |numbers|, x);
    }
    if Find(r, n).None? {
      assert FirstIndex(p, n) == |numbers|;
      assert r' == r + [(n, Get(r, n) + 1)];
      forall i | |before| <= i < |r'| ensures r'[i].0 in p && (i < |r| ==> r'[i].0 in numbers) {
        if i < |r| { assert r'[i] == r[i]; }
      }
    } else {
      assert |r'| == |r|;
    }
  }

  /** Counting one more roll `n` keeps `Counted`. */
  lemma CountedStep(before: Counts, numbers: seq<int>, r: Counts, n: int)
    requires Counted(before, numbers, r)
    ensures Counted(before, numbers + [n], Put(r, n, Get(r, n) + 1))
  {
    RiseStep(before, numbers, r, n);
    KeysGainedStep(before, numbers, r, n);
    KeysInOrderStep(before, numbers, r, n);
  }

  /** The counting loop of log_roll. */
  method CountRolls(counts: Counts, numbers: seq<int>) returns (r: Counts)
    ensures Counted(counts, numbers, r)
  {
    r := counts;
    var i := 0;
    assert numbers[..0] == [];
    while i < |numbers|
      invariant 0 <= i <= |numbers|
      invariant Counted(counts, numbers[..i], r)
    {
      var n := numbers[i];
      assert numbers[..i + 1] == numbers[..i] + [n];
      CountedStep(counts, numbers[..i], r, n);
      r := Put(r, n, Get(r, n) + 1);
      i := i + 1;
    }
    assert numbers[..i] == numbers;
  }

  // ---------------------------------------------------------------------
  // _update_embed: sorted(..., key=count, reverse=True), then numbered lines

  /** Place `p` before the first entry whose count is not larger: ahead of equal counts that came later. */
  function Insert(p: (int, int), s: Counts): (r: Counts)
    ensures |r| == |s| + 1
    ensures r[0] == p || (s != [] && r[0] == s[0])
    ensures multiset(r) == multiset(s) + multiset{p}
    decreases |s|
  {
    if s == [] || p.1 >= s[0].1 then [p] + s
    else
      var r := [s[0]] + Insert(p, s[1..]);
      assert s == [s[0]] + s[1..];
      r
  }

  /** Python's stable `sorted(d.items(), key=count, reverse=True)`. */
  function SortByCount(d: Counts): (r: Counts)
    ensures multiset(r) == multiset(d)
    decreases |d|
  {
    if d == [] then []
    else
      assert d == [d[0]] + d[1..];
      Insert(d[0], SortByCount(d[1..]))
  }

  predicate Descending(s: Counts)
    decreases |s|
  {
    |s| <= 1 || (s[0].1 >= s[1].1 && Descending(s[1..]))
  }

  lemma {:induction false} InsertDescending(p: (int, int), s: Counts)
    requires Descending(s)
    ensures Descending(Insert(p, s))
    decreases |s|
  {
    if s != [] && p.1 < s[0].1 {
      InsertDescending(p, s[1..]);
      var r := Insert(p, s);
      assert r[1..] == Insert(p, s[1..]);
    }
  }

  lemma {:induction false} SortDescending(d: Counts)
    ensures Descending(SortByCount(d))
    decreases |d|
  {
    if d != [] {
      SortDescending(d[1..]);
      InsertDescending(d[0], SortByCount(d[1..]));
    }
  }

  lemma {:induction false} DescendingPairs(s: Counts)
    requires Descending(s)
    ensures forall i, j :: 0 <= i < j < |s| ==> s[i].1 >= s[j].1
    decreases |s|
  {
    if |s| > 1 {
      DescendingPairs(s[1..]);
      forall i, j | 0 <= i < j < |s| ensures s[i].1 >= s[j].1 {
        if i > 0 { assert s[i] == s[1..][i - 1] && s[j] == s[1..][j - 1]; }
        else if j > 1 { assert s[1] == s[1..][0] && s[j] == s[1..][j - 1]; }
      }
    }
  }

  /** Where Insert puts `p`: after the entries of `s` with a larger count, ahead of the rest. */
  function InsertPoint(p: (int, int), s: Counts): (m: nat)
    ensures m <= |s| && Insert(p, s)[m] == p
    ensures forall i :: 0 <= i < m ==> Insert(p, s)[i] == s[i] && s[i].1 > p.1
    ensures forall i :: m < i <= |s| ==> Insert(p, s)[i] == s[i - 1]
    decreases |s|
  {
    if s == [] || p.1 >= s[0].1 then 0
    else
      var m' := InsertPoint(p, s[1..]);
      var r := Insert(p, s);
      assert r == [s[0]] + Insert(p, s[1..]);
      assert forall i :: 0 < i <= |s| ==> r[i] == Insert(p, s[1..])[i - 1];
      assert forall i :: 0 < i < |s| ==> s[i] == s[1..][i - 1];
      m' + 1
  }

  /** An entry behind the head keeps its order relative to the others when the head is put back in front. */
  lemma BehindHead(d: Counts, x: (int, int), y: (int, int))
    requires d != [] && d[0] !in d[1..] && x in d[1..] && y in d[1..]
    requires FirstIndex(d[1..], x) < FirstIndex(d[1..], y)
    ensures x in d && y in d && FirstIndex(d, x) < FirstIndex(d, y)
  {
    assert d == [d[0]] + d[1..];
  }

  lemma HeadFirst(d: Counts, y: (int, int))
    requires d != [] && d[0] !in d[1..] && y in d[1..]
    ensures y in d && FirstIndex(d, d[0]) < FirstIndex(d, y)
  {
    assert d == [d[0]] + d[1..];
  }

  /**
   * sorted() is stable: entries with equal counts keep the order they have in
   * the table, which for roll_counts is the order of their first roll.
   */
  lemma {:induction false} SortByCountStable(d: Counts)
    requires DistinctKeys(d)
    ensures forall i, j :: 0 <= i < j < |SortByCount(d)| && SortByCount(d)[i].1 == SortByCount(d)[j].1 ==>
      SortByCount(d)[i] in d && SortByCount(d)[j] in d &&
      FirstIndex(d, SortByCount(d)[i]) < FirstIndex(d, SortByCount(d)[j])
    decreases |d|
  {
    if d != [] {
      var t := d[1..];
      var s := SortByCount(t);
      var r := SortByCount(d);
      SortByCountStable(t);
      var m := InsertPoint(d[0], s);
      assert d[0] !in t by {
        if d[0] in t {
          var k :| 0 <= k < |t| && t[k] == d[0];
          FindAt(t, k);
        }
      }
      assert r == Insert(d[0], s);
      forall i, j | 0 <= i < j < |r| && r[i].1 == r[j].1
        ensures r[i] in d && r[j] in d && FirstIndex(d, r[i]) < FirstIndex(d, r[j])
      {
        var j' := if j < m then j else j - 1;
        assert r[j] == s[j'] && s[j'] in multiset(t);
        if i == m {
          HeadFirst(d, r[j]);
        } else {
          var i' := if i < m then i else i - 1;
          assert i' < j' && r[i] == s[i'] && s[i'] in multiset(t);
          BehindHead(d, r[i], r[j]);
        }
      }
    }
  }

  /** The sorted table lists every entry once, largest counts first. */
  lemma SortByCountSpec(d: Counts)
    ensures multiset(SortByCount(d)) == multiset(d)
    ensures forall i, j :: 0 <= i < j < |SortByCount(d)| ==> SortByCount(d)[i].1 >= SortByCount(d)[j].1
  {
    SortDescending(d);
    DescendingPairs(SortByCount(d));
  }

  lemma {:induction false} FindInsert(p: (int, int), s: Counts, k: int)
    requires Find(s, p.0).None?
    ensures Find(Insert(p, s), k) == if k == p.0 then Some(p.1) else Find(s, k)
    ensures DistinctKeys(s) ==> DistinctKeys(Insert(p, s))
    decreases |s|
  {
    if s != [] && p.1 < s[0].1 {
      FindInsert(p, s[1..], k);
      FindInsert(p, s[1..], s[0].0);
      var r := Insert(p, s);
      assert r[1..] == Insert(p, s[1..]);
    }
  }

  /** Sorting a table with distinct keys keeps every key's count and the keys distinct. */
  lemma {:induction false} FindSorted(d: Counts, k: int)
    requires DistinctKeys(d)
    ensures Find(SortByCount(d), k) == Find(d, k)
    ensures DistinctKeys(SortByCount(d))
    decreases |d|
  {
    if d != [] {
      FindSorted(d[1..], k);
      FindSorted(d[1..], d[0].0);
      FindInsert(d[0], SortByCount(d[1..]), k);
    }
  }

  /** One rendered line: "i. number|count". */
  function Line(i: nat, e: (int, int)): string
  {
    NatToString(i) + ". " + IntToString(e.0) + "|" + IntToString(e.1)
  }

  /** The lines of a sorted table, numbered from `from`. */
  function Lines(s: Counts, from: nat): (r: seq<string>)
    ensures |r| == |s|
    decreases |s|
  {
    if s == [] then [] else [Line(from, s[0])] + Lines(s[1..], from + 1)
  }

  lemma {:induction false} LinesAt(s: Counts, from: nat, i: nat)
    requires i < |s|
    ensures Lines(s, from)[i] == Line(from + i, s[i])
    decreases |s|
  {
    var r := Lines(s, from);
    assert r == [Line(from, s[0])] + Lines(s[1..], from + 1);
    if i > 0 {
      LinesAt(s[1..], from + 1, i - 1);
      assert r[i] == Lines(s[1..], from + 1)[i - 1];
    }
  }

  /** The embed description for a table. */
  function Description(d: Counts): string
  {
    if d == [] then Placeholder else Join(Lines(SortByCount(d), 1), "\n")
  }

  // ---------------------------------------------------------------------
  // initialize_from_channel: reading the description back

  /** One line "i. number|count" read back; None for a line the parser skips. */
  function ParseLine(line: string): Option<(int, int)>
  {
    if '|' !in line then None
    else
      var parts := Split(line, '.');
      if |parts| < 2 then None
      else
        var pair := Split(Strip(parts[1]), '|');
        if |pair| != 2 then None
        else
          match (ParseInt(pair[0]), ParseInt(pair[1]))
          case (Some(number), Some(count)) => Some((number, count))
          case _ => None
  }

  /** The parsed form of every line. */
  function Entries(lines: seq<string>): (r: seq<Option<(int, int)>>)
    ensures |r| == |lines| && forall i :: 0 <= i < |lines| ==> r[i] == ParseLine(lines[i])
    decreases |lines|
  {
    if lines == [] then [] else [ParseLine(lines[0])] + Entries(lines[1..])
  }

  /** Store every parsed entry into `d`, in order; skipped lines change nothing. */
  function Store(d: Counts, entries: seq<Option<(int, int)>>): Counts
    decreases |entries|
  {
    if entries == [] then d
    else Store(if entries[0].Some? then Put(d, entries[0].value.0, entries[0].value.1) else d, entries[1..])
  }

  /** The description as initialize_from_channel reads it into `d`. */
  function ParseDescription(d: Counts, description: Option<string>): Counts
  {
    if description.None? || description.value == [] || description.value == Placeholder then d
    else Store(d, Entries(Split(description.value, '\n')))
  }

  lemma NumberShape(i: int)
    ensures '.' !in IntToString(i) && '|' !in IntToString(i) && '\n' !in IntToString(i)
    ensures IntToString(i) != [] && !IsSpace(IntToString(i)[0])
  {
    IntToStringShape(i);
  }

  /** The leading blank after the dot is dropped by `strip()`. */
  lemma StripAfterDot(b: string, c: string)
    requires b != [] && !IsSpace(b[0]) && c != [] && !IsSpace(c[|c| - 1])
    ensures Strip(" " + b + "|" + c) == b + "|" + c
  {
    var inner := b + "|" + c;
    assert " " + b + "|" + c == " " + inner;
    assert (" " + inner)[1..] == inner;
    assert IsSpace((" " + inner)[0]);
    assert TrimLeft(" " + inner) == TrimLeft(inner);
    assert inner[0] == b[0] && inner[|inner| - 1] == c[|c| - 1];
    StripUnchanged(inner);
    assert TrimLeft(inner) == inner;
  }

  /** The two splits ParseLine makes, on a line of the rendered shape. */
  lemma SplitsOfLine(a: string, b: string, c: string)
    requires '.' !in a && '.' !in b && '.' !in c && '|' !in b && '|' !in c
    ensures Split(a + ". " + b + "|" + c, '.') == [a, " " + b + "|" + c]
    ensures Split(b + "|" + c, '|') == [b, c]
  {
    var rest := " " + b + "|" + c;
    assert '.' !in rest by {
      forall k | 0 <= k < |rest| ensures rest[k] != '.' {
        if k == 0 {
        } else if k <= |b| {
          assert rest[k] == b[k - 1];
        } else if k > |b| + 1 {
          assert rest[k] == c[k - |b| - 2];
        }
      }
    }
    assert a + ". " + b + "|" + c == a + ['.'] + rest;
    SplitPair(a, rest, '.');
    assert b + "|" + c == b + ['|'] + c;
    SplitPair(b, c, '|');
  }

  /** Every rendered line reads back as the entry it shows. */
  lemma ParseLineOfLine(i: nat, e: (int, int))
    ensures ParseLine(Line(i, e)) == Some(e)
    ensures '\n' !in Line(i, e)
  {
    var a, b, c := IntToString(i), IntToString(e.0), IntToString(e.1);
    NumberShape(i);
    NumberShape(e.0);
    NumberShape(e.1);
    IntToStringShape(e.1);
    var line := Line(i, e);
    assert line == a + ". " + b + "|" + c;
    assert '\n' !in line;
    assert line[|a| + 2 + |b|] == '|';
    SplitsOfLine(a, b, c);
    StripAfterDot(b, c);
    ParseIntToString(e.0);
    ParseIntToString(e.1);
  }

  /** Every entry of a table, as its line parses. */
  function Wrapped(s: Counts): (r: seq<Option<(int, int)>>)
    ensures |r| == |s| && forall i :: 0 <= i < |s| ==> r[i] == Some(s[i])
    decreases |s|
  {
    if s == [] then [] else [Some(s[0])] + Wrapped(s[1..])
  }

  /** The lines of a table parse back into its entries. */
  lemma EntriesOfLines(s: Counts, from: nat)
    ensures Entries(Lines(s, from)) == Wrapped(s)
  {
    forall i | 0 <= i < |s| ensures Entries(Lines(s, from))[i] == Wrapped(s)[i] {
      LinesAt(s, from, i);
      ParseLineOfLine(from + i, s[i]);
    }
  }

  lemma {:induction false} FindAt(d: Counts, i: nat)
    requires i < |d|
    ensures Find(d, d[i].0).Some?
    decreases i
  {
    if i > 0 && d[0].0 != d[i].0 {
      FindAt(d[1..], i - 1);
    }
  }

  /** No key of `s` is stored in `acc`. */
  predicate Fresh(acc: Counts, s: Counts)
  {
    forall i :: 0 <= i < |s| ==> Find(acc, s[i].0).None?
  }

  /** The rest of a table with distinct keys is fresh after its first entry. */
  lemma RestFresh(acc: Counts, s: Counts)
    requires s != [] && DistinctKeys(s) && Fresh(acc, s)
    ensures Fresh(acc + [s[0]], s[1..])
  {
    forall i | 0 <= i < |s| - 1 ensures Find(acc + [s[0]], s[1..][i].0).None? {
      FindAppend(acc, s[0], s[i + 1].0);
      FindAt(s[1..], i);
      assert s[1..][i] == s[i + 1];
    }
  }

  lemma StoreFirst(acc: Counts, s: Counts)
    requires s != [] && Find(acc, s[0].0).None?
    ensures Store(acc, Wrapped(s)) == Store(acc + [s[0]], Wrapped(s[1..]))
  {
    assert Wrapped(s)[1..] == Wrapped(s[1..]);
  }

  lemma AppendFirst(acc: Counts, s: Counts)
    requires s != []
    ensures acc + [s[0]] + s[1..] == acc + s
  {
    assert s == [s[0]] + s[1..];
  }

  /** Storing the entries of a table with fresh, distinct keys appends the table. */
  lemma {:induction false} StoreWrapped(acc: Counts, s: Counts)
    requires DistinctKeys(s) && Fresh(acc, s)
    ensures Store(acc, Wrapped(s)) == acc + s
    decreases |s|
  {
    if s != [] {
      StoreFirst(acc, s);
      RestFresh(acc, s);
      StoreWrapped(acc + [s[0]], s[1..]);
      AppendFirst(acc, s);
    }
  }

  lemma LinesHaveNoNewline(s: Counts)
    ensures forall i :: 0 <= i < |Lines(s, 1)| ==> '\n' !in Lines(s, 1)[i]
  {
    forall i | 0 <= i < |Lines(s, 1)| ensures '\n' !in Lines(s, 1)[i] {
      LinesAt(s, 1, i);
      ParseLineOfLine(1 + i, s[i]);
    }
  }

  /** Reading back a rendered description into an empty table gives the same count for every number. */
  lemma DescriptionRoundTrip(d: Counts, k: int)
    requires DistinctKeys(d)
    ensures Find(ParseDescription([], Some(Description(d))), k) == Find(d, k)
  {
    if d != [] {
      var s := SortByCount(d);
      FindSorted(d, k);
      var lines := Lines(s, 1);
      LinesHaveNoNewline(s);
      SplitJoin(lines, '\n');
      LinesAt(s, 1, 0);
      var text := Join(lines, "\n");
      assert text[0] == '1' by {
        assert lines[0] == "1" + ". " + IntToString(s[0].0) + "|" + IntToString(s[0].1);
        if |lines| > 1 { assert text == lines[0] + "\n" + Join(lines[1..], "\n"); }
      }
      assert text != Placeholder by { assert Placeholder[0] == 'N'; }
      EntriesOfLines(s, 1);
      StoreWrapped([], s);
      assert [] + s == s;
    }
  }

  /** The placeholder shows exactly when nothing has been rolled. */
  lemma PlaceholderIffEmpty(d: Counts)
    ensures Description(d) == Placeholder <==> d == []
  {
    if d != [] {
      var lines := Lines(SortByCount(d), 1);
      LinesAt(SortByCount(d), 1, 0);
      var text := Join(lines, "\n");
      assert text[0] == '1' by {
        if |lines| > 1 { assert text == lines[0] + "\n" + Join(lines[1..], "\n"); }
      }
      assert Placeholder[0] == 'N';
    }
  }

  /** A line the parser rejects leaves the table as it was. */
  lemma SkippedLine(d: Counts, line: string, rest: seq<string>)
    requires ParseLine(line).None?
    ensures Store(d, Entries([line] + rest)) == Store(d, Entries(rest))
  {
    assert Entries([line] + rest)[1..] == Entries(rest);
  }

  // ---------------------------------------------------------------------
  // _get_current_date_est: month/day/two-digit year

  function TwoDigits(y: nat): (r: string)
    requires y < 100
    ensures |r| == 2 && IsDigit(r[0]) && IsDigit(r[1])
  {
    [DigitChar(y / 10), DigitChar(y % 10)]
  }

  /** The date line, e.g. "12/15/25": no leading zeros on month and day, `%y` for the year. */
  function DateText(month: nat, day: nat, year: nat): string
  {
    NatToString(month) + "/" + NatToString(day) + "/" + TwoDigits(year % 100)
  }

  /** The date line splits back into month, day and the last two digits of the year. */
  lemma DateTextFields(month: nat, day: nat, year: nat)
    requires 1 <= month && 1 <= day
    ensures var f := Split(DateText(month, day, year), '/');
      |f| == 3 &&
      IsDigitString(f[0]) && f[0][0] != '0' && DigitsValue(f[0]) == month &&
      IsDigitString(f[1]) && f[1][0] != '0' && DigitsValue(f[1]) == day &&
      IsDigitString(f[2]) && |f[2]| == 2 && DigitsValue(f[2]) == year % 100
  {
    var m, d, y := NatToString(month), NatToString(day), TwoDigits(year % 100);
    assert '/' !in m && '/' !in d && '/' !in y by {
      assert forall x :: x in m ==> IsDigit(x);
      assert forall x :: x in d ==> IsDigit(x);
      assert forall x :: x in y ==> IsDigit(x);
    }
    SplitJoin([m, d, y], '/');
    assert [m, d, y][1..] == [d, y] && [d, y][1..] == [y];
    assert Join([d, y], "/") == d + "/" + y;
    assert Join([m, d, y], "/") == m + "/" + Join([d, y], "/");
    assert DateText(month, day, year) == m + "/" + (d + "/" + y);
    var v := year % 100;
    assert DigitsValue(y) == v by {
      assert y[..1] == [DigitChar(v / 10)];
      assert DigitsValue([DigitChar(v / 10)]) == v / 10 by {
        assert [DigitChar(v / 10)][..0] == [];
      }
    }
  }

  // ---------------------------------------------------------------------
  // The logger

  /** How the edit of the embed message went. */
  datatype EditResult = Edited | NotFound | EditFailed

  /** The first embed of a history message, when it has one. */
  datatype Embed = Embed(title: Option<string>, description: Option<string>)

  /** A message of the roll-log channel, with the content of the message just before it. */
  datatype HistoryMessage = HistoryMessage(id: int, firstEmbed: Option<Embed>, previousContent: Option<string>)

  const HistoryLimit: nat := 50

  /** Today's embed: titled "Roll History" and preceded by today's date line. */
  predicate IsTodaysEmbed(m: HistoryMessage, today: string)
  {
    m.firstEmbed.Some? && m.firstEmbed.value.title == Some(EmbedTitle) && m.previousContent == Some(today)
  }

  /** Index of the first of today's embeds among the messages scanned, or |history| when none. */
  function FirstTodaysEmbed(history: seq<HistoryMessage>, today: string): (k: nat)
    ensures k <= |history|
    ensures k < |history| ==> IsTodaysEmbed(history[k], today)
    ensures forall j :: 0 <= j < k ==> !IsTodaysEmbed(history[j], today)
    decreases |history|
  {
    if history == [] || IsTodaysEmbed(history[0], today) then 0
    else 1 + FirstTodaysEmbed(history[1..], today)
  }

  /** `not self.current_message_id`: no id, or id 0. */
  predicate HasMessage(id: Option<int>) { id.Some? && id.value != 0 }

  /** The numbered lines _update_embed appends one by one, starting at 1. */
  method RenderLines(sorted: Counts) returns (lines: seq<string>)
    ensures lines == Lines(sorted, 1)
  {
    lines := [];
    var i := 0;
    while i < |sorted|
      invariant 0 <= i <= |sorted|
      invariant lines + Lines(sorted[i..], i + 1) == Lines(sorted, 1)
    {
      assert sorted[i..][1..] == sorted[i + 1..];
      lines := lines + [Line(i + 1, sorted[i])];
      i := i + 1;
    }
    assert sorted[i..] == [];
  }

  /** The description _update_embed builds: the numbered lines of the sorted table, or the placeholder. */
  method RenderDescription(counts: Counts) returns (description: string)
    ensures description == Description(counts)
  {
    var sorted := SortByCount(counts);
    assert |multiset(sorted)| == |multiset(counts)|;
    if sorted == [] {
      return Placeholder;
    }
    var lines := RenderLines(sorted);
    description := Join(lines, "\n");
  }

  /** The table log_roll counts into: the current one on the same day, a fresh one on a new day. */
  function DayCounts(date: Option<string>, counts: Counts, today: string): Counts
  {
    if date == Some(today) then counts else []
  }

  /** The embed id after the day check: a new day adopts the new embed's id when it was sent. */
  function DayMessageId(date: Option<string>, id: Option<int>, today: string, embedId: Option<int>): Option<int>
  {
    if date != Some(today) && embedId.Some? then embedId else id
  }

  /** The embed id after _update_embed: a NotFound on an existing message forgets it. */
  function IdAfterUpdate(id: Option<int>, edit: EditResult): Option<int>
  {
    if HasMessage(id) && edit.NotFound? then None else id
  }

  class RollLogger {
    var currentDate: Option<string>
    var currentMessageId: Option<int>
    var rollCounts: Counts

    ghost predicate Valid()
      reads this
    {
      DistinctKeys(rollCounts)
    }

    constructor ()
      ensures Valid()
      ensures currentDate.None? && currentMessageId.None? && rollCounts == []
    {
      currentDate := None;
      currentMessageId := None;
      rollCounts := [];
    }

    /**
     * _create_new_day_embed: the reset happens first; `embedId` is the id of
     * the sent embed, None when a send raised (the id is then kept).
     */
    method CreateNewDayEmbed(date: string, embedId: Option<int>)
      modifies this
      ensures Valid()
      ensures currentDate == Some(date) && rollCounts == []
      ensures currentMessageId == if embedId.Some? then embedId else old(currentMessageId)
    {
      currentDate := Some(date);
      rollCounts := [];
      if embedId.Some? {
        currentMessageId := embedId;
      }
    }

    /**
     * _update_embed: nothing without a message id; otherwise the description
     * of the sorted table is edited in. Returns the description the message
     * now shows, None when no edit happened.
     */
    method UpdateEmbed(edit: EditResult) returns (shown: Option<string>)
      requires Valid()
      modifies this
      ensures Valid()
      ensures currentDate == old(currentDate) && rollCounts == old(rollCounts)
      ensures !HasMessage(old(currentMessageId)) ==> shown.None? && currentMessageId == old(currentMessageId)
      ensures HasMessage(old(currentMessageId)) ==>
        shown == (if edit.Edited? then Some(Description(rollCounts)) else None) &&
        currentMessageId == (if edit.NotFound? then None else old(currentMessageId))
    {
      shown := None;
      if !HasMessage(currentMessageId) {
        return;
      }
      var description := RenderDescription(rollCounts);
      match edit
      case Edited => shown := Some(description);
      case NotFound => currentMessageId := None;
      case EditFailed =>
    }

    /**
     * log_roll: a new date starts a new day's embed; every number is counted;
     * then the embed is updated.
     */
    method LogRoll(today: string, numbers: seq<int>, embedId: Option<int>, edit: EditResult)
      returns (shown: Option<string>)
      requires Valid()
      modifies this
      ensures Valid()
      ensures currentDate == Some(today)
      ensures Counted(DayCounts(old(currentDate), old(rollCounts), today), numbers, rollCounts)
      ensures var id := DayMessageId(old(currentDate), old(currentMessageId), today, embedId);
        shown == (if HasMessage(id) && edit.Edited? then Some(Description(rollCounts)) else None) &&
        currentMessageId == IdAfterUpdate(id, edit)
    {
      if currentDate != Some(today) {
        CreateNewDayEmbed(today, embedId);
      }
      rollCounts := CountRolls(rollCounts, numbers);
      shown := UpdateEmbed(edit);
    }

    /**
     * initialize_from_channel: the first of today's embeds among the last
     * 50 messages is adopted and its description read into the table.
     */
    method InitializeFromChannel(today: string, history: seq<HistoryMessage>)
      requires Valid()
      modifies this
      ensures Valid()
      ensures var scanned := history[..if |history| < HistoryLimit then |history| else HistoryLimit];
        var k := FirstTodaysEmbed(scanned, today);
        if k < |scanned| then
          currentMessageId == Some(scanned[k].id) && currentDate == Some(today) &&
          rollCounts == ParseDescription(old(rollCounts), scanned[k].firstEmbed.value.description)
        else
          currentMessageId == old(currentMessageId) && currentDate == old(currentDate) &&
          rollCounts == old(rollCounts)
    {
      var n := if |history| < HistoryLimit then |history| else HistoryLimit;
      ghost var scanned := history[..n];
      var i := 0;
      while i < n
        invariant 0 <= i <= n
        invariant forall j :: 0 <= j < i ==> !IsTodaysEmbed(scanned[j], today)
        invariant currentMessageId == old(currentMessageId) && currentDate == old(currentDate)
        invariant rollCounts == old(rollCounts)
      {
        var m := history[i];
        if IsTodaysEmbed(m, today) {
          assert scanned[i] == m;
          FirstTodaysEmbedAt(scanned, today, i);
          var counts := ParseStoredDescription(rollCounts, m.firstEmbed.value.description);
          currentMessageId := Some(m.id);
          currentDate := Some(today);
          rollCounts := counts;
          return;
        }
        i := i + 1;
      }
      FirstTodaysEmbedAt(scanned, today, n);
    }
  }

  /** The parsing loop of initialize_from_channel, storing every well-formed line into `counts`. */
  method ParseStoredDescription(counts: Counts, description: Option<string>) returns (r: Counts)
    requires DistinctKeys(counts)
    ensures DistinctKeys(r)
    ensures r == ParseDescription(counts, description)
  {
    r := counts;
    if description.None? || description.value == [] || description.value == Placeholder {
      return;
    }
    var lines := Split(description.value, '\n');
    var j := 0;
    while j < |lines|
      invariant 0 <= j <= |lines|
      invariant DistinctKeys(r)
      invariant Store(r, Entries(lines)[j..]) == ParseDescription(counts, description)
    {
      assert Entries(lines)[j..][1..] == Entries(lines)[j + 1..];
      var entry := ParseLine(lines[j]);
      if entry.Some? {
        r := Put(r, entry.value.0, entry.value.1);
      }
      j := j + 1;
    }
  }

  lemma {:induction false} FirstTodaysEmbedAt(history: seq<HistoryMessage>, today: string, i: nat)
    requires i <= |history|
    requires forall j :: 0 <= j < i ==> !IsTodaysEmbed(history[j], today)
    requires i < |history| ==> IsTodaysEmbed(history[i], today)
    ensures FirstTodaysEmbed(history, today) == i
    decreases i
  {
    if i > 0 {
      FirstTodaysEmbedAt(history[1..], today, i - 1);
    }
  }
}
