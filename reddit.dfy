/**
 * The parsing rules of Psyduck/reddit_manager.py: the spot-assignment
 * lines of a raffle post's body, the post id in a Reddit link, the
 * host normalisation applied before a fetch, the choice of the post's
 * image and the record handed to the command handler.
 */
module Reddit {
  import opened Text
  import Utils

  // ---------------------------------------------------------------------
  // _parse_spot_assignments: re.match(r'^(\d+)\s+/?u/([\w\-]+)(?:\s+\*?\*?PAID\*?\*?)?', line.strip(), re.IGNORECASE)

  /** Characters of `[\w\-]`. */
  predicate IsNameChar(c: char) { IsWordChar(c) || c == '-' }

  function NameRunEnd(s: string, i: nat): (j: nat)
    requires i <= |s|
    ensures i <= j <= |s| && (j == |s| || !IsNameChar(s[j]))
    ensures forall k :: i <= k < j ==> IsNameChar(s[k])
    decreases |s| - i
  {
    if i < |s| && IsNameChar(s[i]) then NameRunEnd(s, i + 1) else i
  }

  /**
   * `/?u/([\w\-]+)` at the start of `t`: the name it captures. When "/" is
   * taken but no "u/" follows, giving the "/" back leaves "/" where "u" is
   * needed, so taking the "/" whenever it is there decides the match.
   */
  function UserAt(t: string): Option<string>
  {
    var u := if t != [] && t[0] == '/' then 1 else 0;
    if u + 2 <= |t| && (t[u] == 'u' || t[u] == 'U') && t[u + 1] == '/' then
      var e := NameRunEnd(t, u + 2);
      if e > u + 2 then Some(t[u + 2..e]) else None
    else None
  }

  /**
   * The spot pattern on one stripped line: the spot number and the user
   * name, or None. The digit run is followed by whitespace and the
   * whitespace by "/" or "u", neither of which the run before it could
   * give back, so the greedy runs decide the match; the optional PAID
   * group never changes the groups, and the match is anchored only at the
   * start.
   */
  function ParseSpotLine(line: string): Option<(nat, string)>
  {
    if line == [] || !IsDigit(line[0]) then None
    else
      var j := Utils.DigitRunEnd(line, 0);
      var k := Utils.SpaceRunEnd(line, j);
      if k == j then None
      else
        match UserAt(line[k..])
        case None => None
        case Some(name) => Some((DigitsValue(line[..j]), name))
  }

  /** One way to write a spot line: "<digits><spaces>[/]u/<name><rest>". */
  datatype SpotLine = SpotLine(digits: string, gap: string, slash: bool, upper: bool, name: string, rest: string)

  predicate IsName(name: string) { name != [] && forall i :: 0 <= i < |name| ==> IsNameChar(name[i]) }

  predicate WellFormed(p: SpotLine)
  {
    && IsDigitString(p.digits)
    && p.gap != [] && (forall i :: 0 <= i < |p.gap| ==> IsSpace(p.gap[i]))
    && IsName(p.name)
    && (p.rest == [] || !IsNameChar(p.rest[0]))
  }

  /** The "[/]u/<name><rest>" part. */
  function UserPrefix(slash: bool, upper: bool): string
  {
    (if slash then "/" else "") + [if upper then 'U' else 'u'] + "/"
  }

  function UserText(slash: bool, upper: bool, name: string, rest: string): string
  {
    UserPrefix(slash, upper) + (name + rest)
  }

  function LineText(p: SpotLine): string
  {
    p.digits + p.gap + UserText(p.slash, p.upper, p.name, p.rest)
  }

  lemma {:induction false} SpaceRunEndAt(s: string, i: nat, j: nat)
    requires i <= j < |s| && !IsSpace(s[j])
    requires forall k :: i <= k < j ==> IsSpace(s[k])
    ensures Utils.SpaceRunEnd(s, i) == j
    decreases j - i
  {
    if i < j { SpaceRunEndAt(s, i + 1, j); }
  }

  lemma {:induction false} NameRunEndAt(s: string, i: nat, j: nat)
    requires i <= j <= |s| && (j == |s| || !IsNameChar(s[j]))
    requires forall k :: i <= k < j ==> IsNameChar(s[k])
    ensures NameRunEnd(s, i) == j
    decreases j - i
  {
    if i < j { NameRunEndAt(s, i + 1, j); }
  }

  lemma UserAtComplete(slash: bool, upper: bool, name: string, rest: string)
    requires IsName(name) && (rest == [] || !IsNameChar(rest[0]))
    ensures UserAt(UserText(slash, upper, name, rest)) == Some(name)
  {
    var pre := UserPrefix(slash, upper);
    var tail := name + rest;
    var t := UserText(slash, upper, name, rest);
    var u := if slash then 1 else 0;
    var e := u + 2 + |name|;
    assert |pre| == u + 2;
    ConcatParts(pre, tail);
    ConcatParts(name, rest);
    assert t[0] == pre[0] && t[u] == pre[u] && t[u + 1] == pre[u + 1];
    assert forall i :: u + 2 <= i < e ==> t[i] == name[i - u - 2];
    assert e < |t| ==> t[e] == rest[0];
    NameRunEndAt(t, u + 2, e);
    assert t[u + 2..e] == tail[..|name|];
  }

  /** Where the two halves of a concatenation sit. */
  lemma ConcatParts(a: string, b: string)
    ensures (a + b)[..|a|] == a && (a + b)[|a|..] == b
  {
  }

  lemma UserAtSound(t: string) returns (slash: bool, upper: bool, rest: string)
    requires UserAt(t).Some?
    ensures IsName(UserAt(t).value) && (rest == [] || !IsNameChar(rest[0]))
    ensures t == UserText(slash, upper, UserAt(t).value, rest)
  {
    slash := t != [] && t[0] == '/';
    var u := if slash then 1 else 0;
    upper := t[u] == 'U';
    var e := NameRunEnd(t, u + 2);
    var name := t[u + 2..e];
    assert UserAt(t) == Some(name);
    rest := t[e..];
    assert IsName(name) by {
      assert forall i :: 0 <= i < |name| ==> name[i] == t[u + 2 + i];
    }
    assert t[..u + 2] == UserPrefix(slash, upper);
    assert t[u + 2..] == name + rest;
    assert t == t[..u + 2] + t[u + 2..];
  }

  /** Where the number, the gap and the user part sit in a spot line. */
  lemma LineLayout(d: string, g: string, t: string)
    ensures (d + g + t)[..|d|] == d && (d + g + t)[|d|..|d| + |g|] == g && (d + g + t)[|d| + |g|..] == t
  {
    assert d + g + t == d + (g + t);
  }

  /** Every well-formed spot line is read as its number and name, whatever follows the name. */
  lemma ParseSpotLineComplete(p: SpotLine)
    requires WellFormed(p)
    ensures ParseSpotLine(LineText(p)) == Some((DigitsValue(p.digits), p.name))
  {
    var t := UserText(p.slash, p.upper, p.name, p.rest);
    var s := LineText(p);
    var j := |p.digits|;
    var k := j + |p.gap|;
    LineLayout(p.digits, p.gap, t);
    UserAtComplete(p.slash, p.upper, p.name, p.rest);
    assert t[0] == '/' || t[0] == 'u' || t[0] == 'U';
    assert s[k] == t[0];
    assert forall i :: 0 <= i < j ==> s[i] == p.digits[i];
    assert forall i :: j <= i < k ==> s[i] == p.gap[i - j];
    assert s != [] && IsDigit(s[0]);
    Utils.DigitRunEndAt(s, 0, j);
    SpaceRunEndAt(s, j, k);
    assert s[..j] == p.digits && s[k..] == t;
    ParseSpotLineRuns(s, j, k);
  }

  /** The spot pattern on a line, given where its digit and space runs end. */
  lemma ParseSpotLineRuns(s: string, j: nat, k: nat)
    requires 0 < j < k <= |s| && IsDigit(s[0])
    requires Utils.DigitRunEnd(s, 0) == j && Utils.SpaceRunEnd(s, j) == k
    ensures UserAt(s[k..]).Some? ==> ParseSpotLine(s) == Some((DigitsValue(s[..j]), UserAt(s[k..]).value))
  {
  }

  /** Every line the pattern accepts is a well-formed spot line carrying the parsed number and name. */
  lemma ParseSpotLineSound(line: string) returns (p: SpotLine)
    requires ParseSpotLine(line).Some?
    ensures WellFormed(p) && LineText(p) == line
    ensures ParseSpotLine(line) == Some((DigitsValue(p.digits), p.name))
  {
    var j := Utils.DigitRunEnd(line, 0);
    var k := Utils.SpaceRunEnd(line, j);
    var slash, upper, rest := UserAtSound(line[k..]);
    var name := UserAt(line[k..]).value;
    p := SpotLine(line[..j], line[j..k], slash, upper, name, rest);
    assert IsDigitString(p.digits) by {
      assert forall i :: 0 <= i < j ==> p.digits[i] == line[i];
    }
    assert p.gap != [] && forall i :: 0 <= i < |p.gap| ==> IsSpace(p.gap[i]) by {
      assert forall i :: 0 <= i < |p.gap| ==> p.gap[i] == line[j + i];
    }
    assert UserText(slash, upper, name, rest) == line[k..];
    SplitThree(line, j, k);
  }

  lemma SplitThree(s: string, j: nat, k: nat)
    requires j <= k <= |s|
    ensures s[..j] + s[j..k] + s[k..] == s
  {
    assert s[..j] + s[j..k] == s[..k];
  }

  /** "12 u/name **PAID**" assigns spot 12 to name, exactly as "12 u/name" does. */
  lemma PaidSuffixIgnored(n: nat, name: string, suffix: string)
    requires IsName(name)
    requires suffix == [] || !IsNameChar(suffix[0])
    ensures ParseSpotLine(NatToString(n) + " u/" + name + suffix) == Some((n, name))
  {
    var p := SpotLine(NatToString(n), " ", false, false, name, suffix);
    assert LineText(p) == NatToString(n) + " u/" + name + suffix;
    ParseSpotLineComplete(p);
  }

  /** What the pattern makes of one line of the body, once stripped. */
  function LineEntry(line: string): Option<(nat, string)>
  {
    ParseSpotLine(Strip(line))
  }

  /** What the pattern makes of each line of the body. */
  function LineEntries(lines: seq<string>): (r: seq<Option<(nat, string)>>)
    ensures |r| == |lines| && forall i :: 0 <= i < |lines| ==> r[i] == LineEntry(lines[i])
  {
    MapSeq(LineEntry, lines)
  }

  /** The table the entries build in order: each accepted line overwrites its spot. */
  function Assign(entries: seq<Option<(nat, string)>>): map<nat, string>
    decreases |entries|
  {
    if entries == [] then map[]
    else
      var m := Assign(entries[..|entries| - 1]);
      match entries[|entries| - 1]
      case None => m
      case Some(entry) => m[entry.0 := entry.1]
  }

  predicate Names(e: Option<(nat, string)>, n: nat) { e.Some? && e.value.0 == n }

  /** A spot is assigned exactly when some line names it. */
  lemma {:induction false} AssignedIffNamed(entries: seq<Option<(nat, string)>>, n: nat)
    ensures n in Assign(entries) <==> exists i :: 0 <= i < |entries| && Names(entries[i], n)
    decreases |entries|
  {
    if entries != [] {
      var init := entries[..|entries| - 1];
      var last := |entries| - 1;
      AssignedIffNamed(init, n);
      if Names(entries[last], n) {
        assert n in Assign(entries);
      } else {
        assert n in Assign(entries) <==> n in Assign(init);
        if exists i :: 0 <= i < |entries| && Names(entries[i], n) {
          var i :| 0 <= i < |entries| && Names(entries[i], n);
          assert init[i] == entries[i];
        }
        if n in Assign(init) {
          var i :| 0 <= i < |init| && Names(init[i], n);
          assert entries[i] == init[i];
        }
      }
    }
  }

  /** Last write wins: an assigned spot holds the name of the last line that names it. */
  lemma {:induction false} AssignLastWins(entries: seq<Option<(nat, string)>>, n: nat) returns (i: nat)
    requires n in Assign(entries)
    ensures i < |entries| && entries[i] == Some((n, Assign(entries)[n]))
    ensures forall k :: i < k < |entries| ==> !Names(entries[k], n)
    decreases |entries|
  {
    var init := entries[..|entries| - 1];
    var last := |entries| - 1;
    if Names(entries[last], n) {
      i := last;
    } else {
      assert n in Assign(init) && Assign(entries)[n] == Assign(init)[n];
      i := AssignLastWins(init, n);
      assert entries[i] == init[i];
      forall k | i < k < |entries| ensures !Names(entries[k], n) {
        if k < last { assert entries[k] == init[k]; }
      }
    }
  }

  /** The table of a post body. */
  function Assignments(selftext: string): map<nat, string>
  {
    Assign(LineEntries(Split(selftext, '\n')))
  }

  /** _parse_spot_assignments: the body is split on "\n" and each stripped line is tried in turn. */
  method ParseSpotAssignments(selftext: string) returns (m: map<nat, string>)
    ensures m == Assignments(selftext)
  {
    var lines := Split(selftext, '\n');
    ghost var entries := LineEntries(lines);
    m := map[];
    var i := 0;
    while i < |lines|
      invariant 0 <= i <= |lines|
      invariant m == Assign(entries[..i])
    {
      assert entries[..i + 1][..i] == entries[..i];
      var entry := LineEntry(lines[i]);
      if entry.Some? {
        m := m[entry.value.0 := entry.value.1];
      }
      i := i + 1;
    }
    assert entries[..|lines|] == entries;
  }

  // ---------------------------------------------------------------------
  // extract_post_id

  function WordRunEnd(s: string, i: nat): (j: nat)
    requires i <= |s|
    ensures i <= j <= |s| && (j == |s| || !IsWordChar(s[j]))
    ensures forall k :: i <= k < j ==> IsWordChar(s[k])
    decreases |s| - i
  {
    if i < |s| && IsWordChar(s[i]) then WordRunEnd(s, i + 1) else i
  }

  /** The two patterns extract_post_id tries, in its order. */
  datatype PostIdPattern = Comments | Short

  /**
   * The group the pattern captures when it matches at `i`:
   * `reddit\.com/r/\w+/comments/(\w+)` or `redd\.it/(\w+)`. The subreddit
   * run is followed by "/", which `\w` does not cover, so it is maximal too.
   */
  function PostIdAt(pat: PostIdPattern, s: string, i: nat): Option<string>
    requires i <= |s|
  {
    match pat
    case Comments => CommentsIdAt(s, i)
    case Short => ShortIdAt(s, i)
  }

  const CommentsHost: string := "reddit.com/r/"
  const CommentsPath: string := "/comments/"
  const ShortHost: string := "redd.it/"

  function CommentsIdAt(s: string, i: nat): Option<string>
    requires i <= |s|
  {
    if !StartsAt(s, i, CommentsHost) then None
    else
      var j := WordRunEnd(s, i + |CommentsHost|);
      if j == i + |CommentsHost| || !StartsAt(s, j, CommentsPath) then None
      else
        var e := WordRunEnd(s, j + |CommentsPath|);
        if e == j + |CommentsPath| then None else Some(s[j + |CommentsPath|..e])
  }

  function ShortIdAt(s: string, i: nat): Option<string>
    requires i <= |s|
  {
    if !StartsAt(s, i, ShortHost) then None
    else
      var e := WordRunEnd(s, i + |ShortHost|);
      if e == i + |ShortHost| then None else Some(s[i + |ShortHost|..e])
  }

  /** Where re.search finds the pattern: the leftmost index it matches at, or |s| + 1 when there is none. */
  function FirstPostIdMatch(pat: PostIdPattern, s: string, i: nat): (k: nat)
    requires i <= |s|
    ensures i <= k <= |s| + 1
    ensures k <= |s| ==> PostIdAt(pat, s, k).Some?
    ensures forall k' :: i <= k' < k && k' <= |s| ==> PostIdAt(pat, s, k').None?
    decreases |s| - i
  {
    if PostIdAt(pat, s, i).Some? then i
    else if i == |s| then |s| + 1
    else FirstPostIdMatch(pat, s, i + 1)
  }

  /** re.search(pattern, s).group(1), or None. */
  function SearchPostId(pat: PostIdPattern, s: string): (r: Option<string>)
    ensures r.None? <==> forall k :: 0 <= k <= |s| ==> PostIdAt(pat, s, k).None?
    ensures r.Some? ==> exists k :: (0 <= k <= |s| && r == PostIdAt(pat, s, k) &&
      forall k' :: 0 <= k' < k ==> PostIdAt(pat, s, k').None?)
  {
    var k := FirstPostIdMatch(pat, s, 0);
    if k <= |s| then PostIdAt(pat, s, k) else None
  }

  /** extract_post_id: the comments form wins wherever it occurs; redd.it is tried only without it. */
  function ExtractPostId(url: string): (r: Option<string>)
    ensures SearchPostId(Comments, url).Some? ==> r == SearchPostId(Comments, url)
    ensures SearchPostId(Comments, url).None? ==> r == SearchPostId(Short, url)
    ensures r.None? <==> forall k :: 0 <= k <= |url| ==> PostIdAt(Comments, url, k).None? && PostIdAt(Short, url, k).None?
  {
    match SearchPostId(Comments, url)
    case Some(id) => Some(id)
    case None => SearchPostId(Short, url)
  }

  /** Where the pieces of "<h><c><sub><p><id><more>" sit. */
  lemma LinkLayout(h: string, c: string, sub: string, p: string, id: string, more: string)
    requires p != []
    ensures var s := h + c + sub + p + id + more;
      var j := |h| + |c| + |sub|;
      var e := j + |p| + |id|;
      && e <= |s|
      && s[..|h|] == h
      && StartsAt(s, |h|, c)
      && (forall k :: |h| + |c| <= k < j ==> s[k] == sub[k - |h| - |c|])
      && s[j] == p[0] && StartsAt(s, j, p)
      && (forall k :: j + |p| <= k < e ==> s[k] == id[k - j - |p|])
      && s[j + |p|..e] == id
      && (e < |s| ==> s[e] == more[0])
  {
    var s := h + c + sub + p + id + more;
    assert s == h + (c + (sub + (p + (id + more))));
  }

  /** The comments pattern captures the id of "reddit.com/r/<sub>/comments/<id>" where that text starts. */
  lemma CommentsIdOf(host: string, sub: string, id: string, more: string)
    requires sub != [] && forall i :: 0 <= i < |sub| ==> IsWordChar(sub[i])
    requires id != [] && forall i :: 0 <= i < |id| ==> IsWordChar(id[i])
    requires more == [] || !IsWordChar(more[0])
    ensures CommentsIdAt(host + CommentsHost + sub + CommentsPath + id + more, |host|) == Some(id)
  {
    var s := host + CommentsHost + sub + CommentsPath + id + more;
    var j := |host| + |CommentsHost| + |sub|;
    LinkLayout(host, CommentsHost, sub, CommentsPath, id, more);
    assert !IsWordChar(CommentsPath[0]);
    var e := j + |CommentsPath| + |id|;
    WordRunEndAt(s, |host| + |CommentsHost|, j);
    WordRunEndAt(s, j + |CommentsPath|, e);
    assert s[j + |CommentsPath|..e] == id;
    CommentsIdAtRuns(s, |host|, j, e);
  }

  /** The comments pattern at `i`, given where its two word runs end. */
  lemma CommentsIdAtRuns(s: string, i: nat, j: nat, e: nat)
    requires i + |CommentsHost| < j && j + |CommentsPath| < e <= |s|
    requires StartsAt(s, i, CommentsHost) && StartsAt(s, j, CommentsPath)
    requires WordRunEnd(s, i + |CommentsHost|) == j && WordRunEnd(s, j + |CommentsPath|) == e
    ensures CommentsIdAt(s, i) == Some(s[j + |CommentsPath|..e])
  {
  }

  /** A link "<scheme and host>reddit.com/r/<sub>/comments/<id>[/<more>]" yields <id>. */
  lemma ExtractFromCommentsLink(host: string, sub: string, id: string, more: string)
    requires 'r' !in host
    requires sub != [] && forall i :: 0 <= i < |sub| ==> IsWordChar(sub[i])
    requires id != [] && forall i :: 0 <= i < |id| ==> IsWordChar(id[i])
    requires more == [] || !IsWordChar(more[0])
    ensures ExtractPostId(host + CommentsHost + sub + CommentsPath + id + more) == Some(id)
  {
    var s := host + CommentsHost + sub + CommentsPath + id + more;
    CommentsIdOf(host, sub, id, more);
    LinkLayout(host, CommentsHost, sub, CommentsPath, id, more);
    assert host <= s;
    assert CommentsHost[0] == 'r';
    NotStartsAtBefore(s, host, CommentsHost);
    FirstCommentsMatch(s, |host|);
  }

  /** When the comments pattern first matches at `at`, its group is the post id. */
  lemma FirstCommentsMatch(s: string, at: nat)
    requires at <= |s| && CommentsIdAt(s, at).Some?
    requires forall k :: 0 <= k < at ==> !StartsAt(s, k, CommentsHost)
    ensures ExtractPostId(s) == CommentsIdAt(s, at)
  {
    forall k | 0 <= k < at ensures PostIdAt(Comments, s, k).None? {
      assert !StartsAt(s, k, CommentsHost);
    }
    var k := FirstPostIdMatch(Comments, s, 0);
    assert PostIdAt(Comments, s, at).Some?;
    assert k == at;
  }

  /** A text that starts with `h` holds `lit` at no index inside `h` when `h` lacks the first character of `lit`. */
  lemma NotStartsAtBefore(s: string, h: string, lit: string)
    requires h <= s && lit != [] && lit[0] !in h
    ensures forall k :: 0 <= k < |h| ==> !StartsAt(s, k, lit)
  {
    forall k | 0 <= k < |h| ensures !StartsAt(s, k, lit) {
      assert s[k] == h[k];
      assert h[k] in h;
    }
  }

  lemma {:induction false} WordRunEndAt(s: string, i: nat, j: nat)
    requires i <= j <= |s| && (j == |s| || !IsWordChar(s[j]))
    requires forall k :: i <= k < j ==> IsWordChar(s[k])
    ensures WordRunEnd(s, i) == j
    decreases j - i
  {
    if i < j { WordRunEndAt(s, i + 1, j); }
  }

  // ---------------------------------------------------------------------
  // URL normalisation in get_post_info

  // The host names, written in pieces around their dots so that the
  // dot-counting arguments below can see them.
  const Canonical: string := "reddit" + "." + "com"
  const MobileHost: string := "m" + "." + Canonical
  const ImageHost: string := "i" + "." + Canonical
  const WwwHost: string := "www" + "." + Canonical
  const ImageStem: string := "i" + "." + "reddit" + "." + "co"
  const WwwStem: string := "www" + "." + "reddit" + "." + "co"
  const WwwHead: string := "www" + "." + "redd"
  const ItCom: string := "it" + "." + "com"

  /** The three replacements, applied in the program's order: mobile, image, then www host, each by the bare host. */
  function NormaliseUrl(url: string): string
  {
    var a := Replace(url, MobileHost, Canonical);
    var b := Replace(a, ImageHost, Canonical);
    Replace(b, WwwHost, Canonical)
  }

  /** A scheme such as "https://": no dot and none of the hosts' first letters. */
  predicate PlainScheme(scheme: string)
  {
    Count(scheme, '.') == 0 && 'm' !in scheme && 'i' !in scheme && 'w' !in scheme
  }

  lemma DotsAround(a: string, b: string)
    requires '.' !in a
    ensures Count(a + "." + b, '.') == 1 + Count(b, '.')
  {
    CountZero(a, '.');
    CountConcat(a, ".", '.');
    CountConcat(a + ".", b, '.');
  }

  lemma HostDots()
    ensures Count(Canonical, '.') == 1 && Count(MobileHost, '.') == 2
    ensures Count(ImageHost, '.') == 2 && Count(WwwHost, '.') == 2
  {
    CountZero("com", '.');
    DotsAround("reddit", "com");
    DotsAround("m", Canonical);
    DotsAround("i", Canonical);
    DotsAround("www", Canonical);
  }

  lemma HostPieces()
    ensures ImageHost == ImageStem + "m" && WwwHost == WwwStem + "m" && WwwHost == WwwHead + ItCom
    ensures 'm' !in ImageStem && 'm' !in WwwStem && 'i' !in WwwHead
  {
  }

  /** A url with at most one dot holds none of the three hosts, so normalising leaves it as it is. */
  lemma NormaliseOneDot(s: string)
    requires Count(s, '.') <= 1
    ensures NormaliseUrl(s) == s
  {
    HostDots();
    ReplaceFewerDots(s, MobileHost, Canonical);
    ReplaceFewerDots(s, ImageHost, Canonical);
    ReplaceFewerDots(s, WwwHost, Canonical);
  }

  lemma CanonicalUrlDots(scheme: string, path: string)
    requires PlainScheme(scheme) && Count(path, '.') == 0
    ensures Count(scheme + Canonical + path, '.') == 1
  {
    HostDots();
    CountConcat(scheme, Canonical, '.');
    CountConcat(scheme + Canonical, path, '.');
  }

  /** A link already on the bare host is left as it is. */
  lemma NormaliseCanonical(scheme: string, path: string)
    requires PlainScheme(scheme) && Count(path, '.') == 0
    ensures NormaliseUrl(scheme + Canonical + path) == scheme + Canonical + path
  {
    CanonicalUrlDots(scheme, path);
    NormaliseOneDot(scheme + Canonical + path);
  }

  /** The last two replacements leave a url with at most one dot as it is. */
  lemma LaterStepsOneDot(s: string)
    requires Count(s, '.') <= 1
    ensures Replace(Replace(s, ImageHost, Canonical), WwwHost, Canonical) == s
  {
    HostDots();
    ReplaceFewerDots(s, ImageHost, Canonical);
    ReplaceFewerDots(s, WwwHost, Canonical);
  }

  /** The mobile host does not occur in "<scheme><stem>m<path>" when 'm' is absent before the final 'm' and the path has no dot. */
  lemma NoMobileBeforeM(scheme: string, stem: string, path: string)
    requires 'm' !in scheme && 'm' !in stem && Count(path, '.') == 0
    ensures Replace(scheme + (stem + "m") + path, MobileHost, Canonical) == scheme + (stem + "m") + path
  {
    HostDots();
    Regroup3(scheme, stem, "m", path);
    CountConcat("m", path, '.');
    ReplaceAbsentSplit(scheme + stem, "m" + path, MobileHost, Canonical);
  }

  /** A mobile link becomes the same link on the bare host. */
  lemma NormaliseMobile(scheme: string, path: string)
    requires PlainScheme(scheme) && Count(path, '.') == 0
    ensures NormaliseUrl(scheme + MobileHost + path) == scheme + Canonical + path
  {
    HostDots();
    assert MobileHost[0] == 'm';
    ReplaceHostStep(scheme, MobileHost, path, Canonical);
    CanonicalUrlDots(scheme, path);
    LaterStepsOneDot(scheme + Canonical + path);
  }

  /** An image-host link becomes the same link on the bare host. */
  lemma NormaliseImage(scheme: string, path: string)
    requires PlainScheme(scheme) && Count(path, '.') == 0
    ensures NormaliseUrl(scheme + ImageHost + path) == scheme + Canonical + path
  {
    HostDots();
    HostPieces();
    NoMobileBeforeM(scheme, ImageStem, path);
    ReplaceHostStep(scheme, ImageHost, path, Canonical);
    CanonicalUrlDots(scheme, path);
    ReplaceFewerDots(scheme + Canonical + path, WwwHost, Canonical);
  }

  lemma TailDots(path: string)
    requires Count(path, '.') == 0
    ensures Count(ItCom + path, '.') == 1
  {
    CountZero("it", '.');
    CountZero("com", '.');
    CountConcat("it", ".", '.');
    CountConcat("it" + ".", "com", '.');
    CountConcat(ItCom, path, '.');
  }

  lemma WwwNoImage(scheme: string, path: string)
    requires PlainScheme(scheme) && Count(path, '.') == 0
    ensures Replace(scheme + WwwHost + path, ImageHost, Canonical) == scheme + WwwHost + path
  {
    HostDots();
    HostPieces();
    Regroup3(scheme, WwwHead, ItCom, path);
    TailDots(path);
    ReplaceAbsentSplit(scheme + WwwHead, ItCom + path, ImageHost, Canonical);
  }

  /** A www link becomes the same link on the bare host. */
  lemma NormaliseWww(scheme: string, path: string)
    requires PlainScheme(scheme) && Count(path, '.') == 0
    ensures NormaliseUrl(scheme + WwwHost + path) == scheme + Canonical + path
  {
    HostDots();
    HostPieces();
    NoMobileBeforeM(scheme, WwwStem, path);
    WwwNoImage(scheme, path);
    ReplaceHostStep(scheme, WwwHost, path, Canonical);
  }

  // ---------------------------------------------------------------------
  // Image selection in get_post_info

  /** The `s` entry of a media item: its `u` and `gif` urls. */
  datatype MediaSource = MediaSource(u: Option<string>, gif: Option<string>)

  /** One entry of `media_metadata`: its `e` kind and its `s` source, each possibly absent. */
  datatype MediaItem = MediaItem(kind: Option<string>, source: Option<MediaSource>)

  /**
   * The submission attributes get_post_info reads. An absent or empty
   * `gallery_data`, `media_metadata` or `preview['images']` is the empty
   * sequence; `media_metadata` keeps its key order.
   */
  datatype Submission = Submission(
    title: string,
    author: string,
    permalink: string,
    subreddit: string,
    selftext: string,
    url: string,
    isGallery: bool,
    galleryItems: seq<string>,
    mediaMetadata: seq<(string, MediaItem)>,
    previewImages: seq<string>)

  /** Python truthiness of an optional string. */
  predicate Truthy(s: Option<string>) { s.Some? && s.value != [] }

  /** `a or b` on optional strings. */
  function Or(a: Option<string>, b: Option<string>): Option<string>
  {
    if Truthy(a) then a else b
  }

  /** `dict.get(key)` on the metadata, which holds each key once. */
  function Lookup(items: seq<(string, MediaItem)>, key: string): (r: Option<MediaItem>)
    ensures r.Some? ==> exists i :: 0 <= i < |items| && items[i] == (key, r.value)
    ensures r.None? ==> forall i :: 0 <= i < |items| ==> items[i].0 != key
    decreases |items|
  {
    if items == [] then None
    else if items[0].0 == key then Some(items[0].1)
    else Lookup(items[1..], key)
  }

  /** html `&amp;` decoded to `&`. */
  function DecodeAmp(url: string): string { Replace(url, "&amp;", "&") }

  /**
   * The url an image entry offers: its `u`, else its `gif`, decoded when
   * truthy; None unless the entry is an Image with a source.
   */
  function ItemImage(item: Option<MediaItem>): Option<string>
  {
    if item.None? || item.value.kind != Some("Image") || item.value.source.None? then None
    else
      var url := Or(item.value.source.value.u, item.value.source.value.gif);
      if Truthy(url) then Some(DecodeAmp(url.value)) else url
  }

  /** Gallery posts: the first `gallery_data` item; when it gives nothing, the first metadata entry. */
  function GalleryImage(s: Submission): Option<string>
  {
    var first := if s.galleryItems != [] then ItemImage(Lookup(s.mediaMetadata, s.galleryItems[0])) else None;
    if !Truthy(first) && s.mediaMetadata != [] then ItemImage(Some(s.mediaMetadata[0].1)) else first
  }

  predicate EndsWith(s: string, suffix: string) { |suffix| <= |s| && s[|s| - |suffix|..] == suffix }

  /** The url names a .jpg, .jpeg, .png or .gif file, in any letter case. */
  predicate IsDirectImage(url: string)
  {
    var l := ToLower(url);
    EndsWith(l, ".jpg") || EndsWith(l, ".jpeg") || EndsWith(l, ".png") || EndsWith(l, ".gif")
  }

  /** Other posts: a direct image url as it is, else the first preview image, decoded. */
  function PostImage(s: Submission): Option<string>
  {
    if s.url != [] && IsDirectImage(s.url) then Some(s.url)
    else if s.previewImages != [] then Some(DecodeAmp(s.previewImages[0]))
    else None
  }

  /** The image_url get_post_info reports. */
  function SelectImage(s: Submission): (r: Option<string>)
    ensures s.isGallery ==> r == GalleryImage(s)
    ensures !s.isGallery ==> r == PostImage(s)
  {
    if s.isGallery then GalleryImage(s) else PostImage(s)
  }

  /** A gallery's image never comes from the post url or the preview. */
  lemma GalleryIgnoresPostImages(s: Submission, url: string, previews: seq<string>)
    requires s.isGallery
    ensures SelectImage(s) == SelectImage(s.(url := url, previewImages := previews))
  {
  }

  /** A gallery whose first item is an image with a `u` url shows that image. */
  lemma GalleryFirstItemWins(s: Submission, u: string, gif: Option<string>)
    requires s.isGallery && s.galleryItems != [] && u != []
    requires Lookup(s.mediaMetadata, s.galleryItems[0]) == Some(MediaItem(Some("Image"), Some(MediaSource(Some(u), gif))))
    ensures SelectImage(s) == Some(DecodeAmp(u))
  {
  }

  /** A gallery whose items give nothing falls back to the first metadata entry. */
  lemma GalleryFallsBackToMetadata(s: Submission)
    requires s.isGallery && s.mediaMetadata != []
    requires s.galleryItems == [] || !Truthy(ItemImage(Lookup(s.mediaMetadata, s.galleryItems[0])))
    ensures SelectImage(s) == ItemImage(Some(s.mediaMetadata[0].1))
  {
  }

  /** A direct image url is used as it is, before any preview, and is not decoded. */
  lemma DirectImageBeforePreview(s: Submission)
    requires !s.isGallery && s.url != [] && IsDirectImage(s.url)
    ensures SelectImage(s) == Some(s.url)
  {
  }

  /** Without a direct image url, the first preview image is used, decoded. */
  lemma PreviewWhenNotDirect(s: Submission)
    requires !s.isGallery && !(s.url != [] && IsDirectImage(s.url)) && s.previewImages != []
    ensures SelectImage(s) == Some(DecodeAmp(s.previewImages[0]))
  {
  }

  /** Decoding leaves a url without any "&" as it is. */
  lemma DecodeAmpPlain(url: string)
    requires '&' !in url
    ensures DecodeAmp(url) == url
  {
    NotContainsWhenHeadAbsent(url, "&amp;");
    ReplaceAbsent(url, "&amp;", "&");
  }

  // ---------------------------------------------------------------------
  // The post record get_post_info returns

  datatype PostInfo = PostInfo(
    title: string,
    author: string,
    authorUrl: string,
    url: string,
    imageUrl: Option<string>,
    subreddit: string,
    spotAssignments: map<nat, string>)

  const RedditHome: string := "https://reddit.com"

  /** The canonical post url: the site root followed by the permalink. */
  function CanonicalUrl(permalink: string): (r: string)
    ensures |r| == 18 + |permalink| && r[..18] == "https://reddit.com" && r[18..] == permalink
  {
    RedditHome + permalink
  }

  /** The record built from a loaded submission. */
  method GetPostInfo(s: Submission) returns (info: PostInfo)
    ensures info.url == CanonicalUrl(s.permalink)
    ensures info.authorUrl == "https://reddit.com/u/" + s.author
    ensures info.title == s.title && info.author == s.author && info.subreddit == s.subreddit
    ensures info.imageUrl == SelectImage(s)
    ensures info.spotAssignments == Assignments(s.selftext)
  {
    var assignments := ParseSpotAssignments(s.selftext);
    info := PostInfo(s.title, s.author, "https://reddit.com/u/" + s.author, CanonicalUrl(s.permalink),
                     SelectImage(s), s.subreddit, assignments);
  }
}
