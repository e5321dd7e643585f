/**
 * Pure parsers and formatters of Psyduck/utils.py: parameter validation,
 * the bot-mention command parser, the "N spots" title parser, the large
 * winning-number header and the text of the verification file.
 */
module Utils {
  import opened Text
  import RandomOrg

  /** Largest range and largest count a draw may ask for. */
  const MaxRange: int := 1000000
  const MaxCount: int := 1000

  // ---------------------------------------------------------------------
  // validate_parameters

  /** The checks of validate_parameters, in the order the program makes them. */
  datatype ParamError =
    | Missing
    | CountBelowOne
    | MaxBelowOne
    | CountAboveMax(count: int, maxValue: int)
    | MaxTooLarge
    | TooManyNumbers

  function ErrorMessage(e: ParamError): string
  {
    match e
    case Missing => "Invalid command format. Use `@GloveAndHisBoy <number>` or `@GloveAndHisBoy <count> <max>`"
    case CountBelowOne => "Count must be at least 1"
    case MaxBelowOne => "Maximum value must be at least 1"
    case CountAboveMax(c, m) => "Cannot pick " + IntToString(c) + " unique numbers from a range of 1-" + IntToString(m)
    case MaxTooLarge => "Maximum value cannot exceed 1,000,000"
    case TooManyNumbers => "Cannot pick more than 1,000 numbers at once"
  }

  /** The first check that fails, or None when every check passes. */
  function FirstFailure(count: Option<int>, maxValue: Option<int>): (r: Option<ParamError>)
    ensures r == None <==>
      count.Some? && maxValue.Some? && 1 <= count.value <= maxValue.value <= MaxRange && count.value <= MaxCount
    ensures r == Some(Missing) <==> count.None? || maxValue.None?
    ensures r == Some(CountBelowOne) <==> count.Some? && maxValue.Some? && count.value < 1
    ensures r == Some(MaxBelowOne) <==> count.Some? && maxValue.Some? && count.value >= 1 && maxValue.value < 1
    ensures r.Some? && r.value.CountAboveMax? <==>
      count.Some? && maxValue.Some? && 1 <= count.value && 1 <= maxValue.value < count.value
    ensures r.Some? && r.value.CountAboveMax? ==> r.value == CountAboveMax(count.value, maxValue.value)
    ensures r == Some(MaxTooLarge) <==>
      count.Some? && maxValue.Some? && 1 <= count.value <= maxValue.value && maxValue.value > MaxRange
    ensures r == Some(TooManyNumbers) <==>
      count.Some? && maxValue.Some? && 1 <= count.value <= maxValue.value <= MaxRange && count.value > MaxCount
  {
    if count.None? || maxValue.None? then Some(Missing)
    else if count.value < 1 then Some(CountBelowOne)
    else if maxValue.value < 1 then Some(MaxBelowOne)
    else if count.value > maxValue.value then Some(CountAboveMax(count.value, maxValue.value))
    else if maxValue.value > MaxRange then Some(MaxTooLarge)
    else if count.value > MaxCount then Some(TooManyNumbers)
    else None
  }

  /** validate_parameters: (is_valid, error_message). */
  function ValidateParameters(count: Option<int>, maxValue: Option<int>): (r: (bool, Option<string>))
    ensures r.0 <==>
      count.Some? && maxValue.Some? && 1 <= count.value <= maxValue.value <= MaxRange && count.value <= MaxCount
    ensures r.0 <==> r.1.None?
    ensures !r.0 ==> r.1 == Some(ErrorMessage(FirstFailure(count, maxValue).value))
  {
    var failure := FirstFailure(count, maxValue);
    if failure.None? then (true, None) else (false, Some(ErrorMessage(failure.value)))
  }

  /** Drawing every slot is allowed; asking for one more than there are slots is not. */
  lemma ValidateBoundaries(n: int)
    requires 1 <= n <= MaxCount
    ensures ValidateParameters(Some(n), Some(n)).0
    ensures ValidateParameters(Some(n + 1), Some(n)) ==
      (false, Some("Cannot pick " + IntToString(n + 1) + " unique numbers from a range of 1-" + IntToString(n)))
  {
  }

  // ---------------------------------------------------------------------
  // parse_spots_from_title: re.search(r'(\d+)\s+[Ss]pots', title)

  /** End of the run of digits that starts at `i`. */
  function DigitRunEnd(s: string, i: nat): (j: nat)
    requires i <= |s|
    ensures i <= j <= |s| && (j == |s| || !IsDigit(s[j]))
    ensures forall k :: i <= k < j ==> IsDigit(s[k])
    decreases |s| - i
  {
    if i < |s| && IsDigit(s[i]) then DigitRunEnd(s, i + 1) else i
  }

  /** End of the run of whitespace that starts at `i`. */
  function SpaceRunEnd(s: string, i: nat): (j: nat)
    requires i <= |s|
    ensures i <= j <= |s| && (j == |s| || !IsSpace(s[j]))
    ensures forall k :: i <= k < j ==> IsSpace(s[k])
    decreases |s| - i
  {
    if i < |s| && IsSpace(s[i]) then SpaceRunEnd(s, i + 1) else i
  }

  /**
   * The pattern matches at `i`: digits from `i`, then at least one whitespace
   * character, then "Spots" or "spots". Both `+` are greedy and a shorter run
   * leaves a digit or a space where the next part needs something else, so
   * the maximal runs decide the match.
   */
  predicate SpotsMatchAt(s: string, i: nat)
  {
    i < |s| && IsDigit(s[i]) &&
    var j := DigitRunEnd(s, i);
    var k := SpaceRunEnd(s, j);
    k > j && (StartsAt(s, k, "Spots") || StartsAt(s, k, "spots"))
  }

  function SpotsValueAt(s: string, i: nat): nat
    requires i < |s|
  {
    DigitsValue(s[i..DigitRunEnd(s, i)])
  }

  /** The leftmost index from `i` at which the pattern matches, or |s| when there is none. */
  function FirstSpotsMatch(s: string, i: nat): (k: nat)
    requires i <= |s|
    ensures i <= k <= |s|
    ensures k < |s| ==> SpotsMatchAt(s, k)
    ensures forall k' :: i <= k' < k ==> !SpotsMatchAt(s, k')
  {
    var k := FirstWhere(SpotsAt(s), i, |s|);
    SpotsAtHolds(s, i, k);
    k
  }

  /** The match test as a function of the position alone. */
  function SpotsAt(s: string): nat -> bool
  {
    (k: nat) => SpotsMatchAt(s, k)
  }

  lemma SpotsAtHolds(s: string, i: nat, n: nat)
    requires forall j :: i <= j < n ==> !SpotsAt(s)(j)
    ensures forall j :: i <= j < n ==> !SpotsMatchAt(s, j)
  {
    forall j | i <= j < n ensures !SpotsMatchAt(s, j) {
      assert !SpotsAt(s)(j);
    }
  }

  /**
   * parse_spots_from_title (utils.py, and its copy in command_handler.py):
   * the value of the leftmost match, or None when nothing matches.
   */
  function ParseSpotsFromTitle(title: string): (r: Option<nat>)
    ensures r.None? <==> forall k :: 0 <= k < |title| ==> !SpotsMatchAt(title, k)
    ensures r.Some? ==> FirstSpotsMatch(title, 0) < |title| && r.value == SpotsValueAt(title, FirstSpotsMatch(title, 0))
  {
    var k := FirstSpotsMatch(title, 0);
    if k < |title| then Some(SpotsValueAt(title, k)) else None
  }

  lemma {:induction false} DigitRunEndAt(s: string, i: nat, j: nat)
    requires i <= j < |s| && !IsDigit(s[j])
    requires forall k :: i <= k < j ==> IsDigit(s[k])
    ensures DigitRunEnd(s, i) == j
    decreases j - i
  {
    if i < j { DigitRunEndAt(s, i + 1, j); }
  }

  lemma CountMatches(before: string, n: nat, word: string, after: string)
    requires word == "Spots" || word == "spots"
    ensures var s := before + NatToString(n) + " " + word + after;
      SpotsMatchAt(s, |before|) && SpotsValueAt(s, |before|) == n
  {
    var a := NatToString(n);
    var s := before + a + " " + word + after;
    var i, j := |before|, |before| + |a|;
    assert s[i..j] == a;
    assert s[j] == ' ' && s[j + 1] == word[0];
    DigitRunEndAt(s, i, j);
    assert SpaceRunEnd(s, j) == j + 1 by {
      assert SpaceRunEnd(s, j + 1) == j + 1;
    }
    assert s[j + 1..j + 6] == word;
  }

  lemma NoMatchWithoutDigit(s: string, k: nat)
    requires k < |s| && !IsDigit(s[k])
    ensures !SpotsMatchAt(s, k)
  {
  }

  /**
   * A title in which no "N spots" match starts before the count, such as
   * "[NM] Phantasmal Flames Booster box | 306 Spots @ $1ea", yields that count.
   */
  lemma TitleWithSpots(before: string, n: nat, word: string, after: string)
    requires forall i :: 0 <= i < |before| ==> !SpotsMatchAt(before + NatToString(n) + " " + word + after, i)
    requires word == "Spots" || word == "spots"
    ensures ParseSpotsFromTitle(before + NatToString(n) + " " + word + after) == Some(n)
  {
    var s := before + NatToString(n) + " " + word + after;
    CountMatches(before, n, word, after);
    var k := FirstSpotsMatch(s, 0);
    assert k <= |before| && k >= |before|;
  }

  /** A title whose text before the count holds no digit meets the premise of TitleWithSpots. */
  lemma DigitFreePrefix(before: string, n: nat, word: string, after: string)
    requires forall i :: 0 <= i < |before| ==> !IsDigit(before[i])
    ensures forall i :: 0 <= i < |before| ==> !SpotsMatchAt(before + NatToString(n) + " " + word + after, i)
  {
    var s := before + NatToString(n) + " " + word + after;
    forall k | 0 <= k < |before| ensures !SpotsMatchAt(s, k) {
      assert s[k] == before[k];
      NoMatchWithoutDigit(s, k);
    }
  }

  // ---------------------------------------------------------------------
  // parse_command

  function Mention(botId: nat): string { "<@" + NatToString(botId) + ">" }
  function NickMention(botId: nat): string { "<@!" + NatToString(botId) + ">" }

  /** The filter loop of parse_command: keep `isdigit()` tokens, as integers. */
  function DigitTokens(parts: seq<string>): (r: seq<nat>)
    ensures |r| <= |parts|
  {
    if parts == [] then []
    else (if IsDigitString(parts[0]) then [DigitsValue(parts[0])] else []) + DigitTokens(parts[1..])
  }

  /** How many of the parts pass `isdigit()`. */
  function DigitCount(parts: seq<string>): nat
    decreases |parts|
  {
    if parts == [] then 0 else (if IsDigitString(parts[0]) then 1 else 0) + DigitCount(parts[1..])
  }

  /**
   * The filter keeps exactly the digit parts, in order: the value of the i-th
   * part, when it is all digits, sits after the values of the digit parts
   * before it.
   */
  lemma {:induction false} DigitTokensAt(parts: seq<string>)
    ensures |DigitTokens(parts)| == DigitCount(parts)
    ensures forall i :: 0 <= i < |parts| && IsDigitString(parts[i]) ==>
      DigitCount(parts[..i]) < |DigitTokens(parts)| && DigitTokens(parts)[DigitCount(parts[..i])] == DigitsValue(parts[i])
    decreases |parts|
  {
    if parts != [] {
      var rest := parts[1..];
      DigitTokensAt(rest);
      var h: seq<nat> := if IsDigitString(parts[0]) then [DigitsValue(parts[0])] else [];
      var r := DigitTokens(parts);
      assert r == h + DigitTokens(rest);
      forall i | 0 <= i < |parts| && IsDigitString(parts[i])
        ensures DigitCount(parts[..i]) < |r| && r[DigitCount(parts[..i])] == DigitsValue(parts[i])
      {
        if i == 0 {
          assert parts[..0] == [];
        } else {
          assert parts[..i][1..] == rest[..i - 1] && parts[i] == rest[i - 1];
          assert DigitCount(parts[..i]) == |h| + DigitCount(rest[..i - 1]);
        }
      }
    }
  }

  /** How parse_command reads the digit tokens left after the mention: one is a max, two are count and max. */
  function CountAndMax(numbers: seq<nat>): (r: (Option<int>, Option<int>))
    ensures r.0.Some? <==> r.1.Some?
    ensures r.0.Some? ==> r.1.value >= 0 && (r.0.value == 1 || 0 <= r.0.value <= r.1.value)
    ensures |numbers| == 1 ==> r == (Some(1), Some(numbers[0] as int))
    ensures |numbers| == 2 ==>
      (r.0.Some? <==> numbers[0] <= numbers[1]) && (r.0.Some? ==> r == (Some(numbers[0] as int), Some(numbers[1] as int)))
    ensures |numbers| != 1 && |numbers| != 2 ==> r == (None, None)
  {
    if |numbers| == 1 then (Some(1), Some(numbers[0] as int))
    else if |numbers| == 2 then
      (if numbers[0] > numbers[1] then (None, None) else (Some(numbers[0] as int), Some(numbers[1] as int)))
    else (None, None)
  }

  /** The text parse_command keeps: the content without the mention, stripped, split on whitespace. */
  function CommandWords(content: string, mention: string): seq<string>
    requires mention != []
  {
    Words(Strip(Replace(content, mention, "")))
  }

  /** parse_command: (count, max_value), or (None, None). */
  function ParseCommand(content: string, botId: nat): (r: (Option<int>, Option<int>))
    ensures r.0.Some? <==> r.1.Some?
    ensures !Contains(content, Mention(botId)) && !Contains(content, NickMention(botId)) ==> r == (None, None)
    ensures r.0.Some? ==> r.1.value >= 0 && (r.0.value == 1 || 0 <= r.0.value <= r.1.value)
  {
    if Contains(content, Mention(botId)) then CountAndMax(DigitTokens(CommandWords(content, Mention(botId))))
    else if Contains(content, NickMention(botId)) then CountAndMax(DigitTokens(CommandWords(content, NickMention(botId))))
    else (None, None)
  }

  lemma {:induction false} TokenLengthAll(w: string)
    requires forall i :: 0 <= i < |w| ==> !IsSpace(w[i])
    ensures TokenLength(w) == |w|
    decreases |w|
  {
    if w != [] { TokenLengthAll(w[1..]); }
  }

  lemma WordsSingle(w: string)
    requires w != [] && forall i :: 0 <= i < |w| ==> !IsSpace(w[i])
    ensures Words(w) == [w]
  {
    TokenLengthAll(w);
    assert TrimLeft(w) == w;
    assert w[..|w|] == w && w[|w|..] == [];
  }

  lemma {:induction false} WordsSpaceLeading(w: string, t: string)
    requires w != [] && forall i :: 0 <= i < |w| ==> !IsSpace(w[i])
    requires t != [] && IsSpace(t[0])
    ensures Words(w + t) == [w] + Words(t)
  {
    var s := w + t;
    assert TrimLeft(s) == s;
    assert TokenLength(s) == |w| by {
      assert s[|w|] == t[0];
      TokenLengthAt(s, |w|);
    }
    assert s[..|w|] == w && s[|w|..] == t;
  }

  lemma TokenLengthAt(s: string, k: nat)
    requires k < |s| && IsSpace(s[k]) && forall i :: 0 <= i < k ==> !IsSpace(s[i])
    ensures TokenLength(s) == k
  {
    if k > 0 { TokenLengthAt(s[1..], k - 1); }
  }

  /** What is left of a command once the mention is removed, for numbers that follow it. */
  lemma {:induction false} RemoveMention(m: string, rest: string)
    requires m != [] && m[0] == '<' && '<' !in rest
    ensures Replace(m + rest, m, "") == rest
  {
    assert m <= m + rest;
    assert (m + rest)[|m|..] == rest;
    NotContainsWhenHeadAbsent(rest, m);
    ReplaceAbsent(rest, m, "");
  }

  lemma DigitsHaveNoMarkup(d: string)
    requires AllDigits(d)
    ensures '<' !in d && forall i :: 0 <= i < |d| ==> !IsSpace(d[i])
  {
  }

  /** After the bot's mention, only the text that follows it is read for numbers. */
  lemma ParseCommandAfterMention(botId: nat, rest: string)
    requires '<' !in rest
    ensures ParseCommand(Mention(botId) + rest, botId) == CountAndMax(DigitTokens(Words(Strip(rest))))
  {
    var m := Mention(botId);
    assert m <= m + rest;
    assert Contains(m + rest, m);
    RemoveMention(m, rest);
  }

  /** After the bot's mention, any number of digit words other than one or two gives (None, None). */
  lemma ParseCommandOtherCounts(botId: nat, rest: string)
    requires '<' !in rest
    requires DigitCount(Words(Strip(rest))) != 1 && DigitCount(Words(Strip(rest))) != 2
    ensures ParseCommand(Mention(botId) + rest, botId) == (None, None)
  {
    ParseCommandAfterMention(botId, rest);
    DigitTokensAt(Words(Strip(rest)));
  }

  /** "<@bot> 25" asks for one winner out of 25. */
  lemma ParseCommandSingle(botId: nat, n: nat)
    ensures ParseCommand(Mention(botId) + " " + NatToString(n), botId) == (Some(1), Some(n as int))
  {
    var a := NatToString(n);
    DigitsHaveNoMarkup(a);
    assert '<' !in " " + a;
    assert Mention(botId) + " " + a == Mention(botId) + (" " + a);
    ParseCommandAfterMention(botId, " " + a);
    WordsOfOne(a);
    assert DigitTokens([a]) == [n] by { assert [a][1..] == []; }
  }

  /** One number after a space is read as one word. */
  lemma WordsOfOne(a: string)
    requires IsDigitString(a)
    ensures Words(Strip(" " + a)) == [a]
  {
    DigitsHaveNoMarkup(a);
    TrimLeftOneSpace(a);
    StripUnchanged(a);
    WordsSingle(a);
  }

  lemma TrimLeftOneSpace(t: string)
    requires t != [] && !IsSpace(t[0])
    ensures TrimLeft(" " + t) == t
  {
    assert (" " + t)[1..] == t;
  }

  /** Two numbers after a space are read as two words. */
  lemma WordsOfPair(a: string, b: string)
    requires IsDigitString(a) && IsDigitString(b)
    ensures Words(Strip(" " + a + " " + b)) == [a, b]
  {
    DigitsHaveNoMarkup(a);
    DigitsHaveNoMarkup(b);
    var rb := " " + b;
    var body := a + rb;
    assert " " + a + " " + b == " " + body;
    TrimLeftOneSpace(body);
    assert body[0] == a[0] && body[|body| - 1] == b[|b| - 1];
    StripUnchanged(body);
    assert Strip(" " + body) == body;
    assert rb[0] == ' ';
    WordsSpaceLeading(a, rb);
    TrimLeftOneSpace(b);
    WordsSingle(b);
    assert Words(rb) == [b];
  }

  lemma Regroup(m: string, p: string, a: string, q: string, b: string)
    ensures m + p + a + q + b == m + (p + a + q + b)
  {
  }

  /** "<@bot> 3 100" asks for three winners out of 100 exactly when 3 <= 100. */
  lemma ParseCommandPair(botId: nat, x: nat, y: nat)
    ensures ParseCommand(Mention(botId) + " " + NatToString(x) + " " + NatToString(y), botId) ==
      if x <= y then (Some(x as int), Some(y as int)) else (None, None)
  {
    var a, b := NatToString(x), NatToString(y);
    Regroup(Mention(botId), " ", a, " ", b);
    PairHasNoMarkup(a, b);
    ParseCommandAfterMention(botId, " " + a + " " + b);
    WordsOfPair(a, b);
    DigitTokensPair(x, y);
  }

  lemma PairHasNoMarkup(a: string, b: string)
    requires IsDigitString(a) && IsDigitString(b)
    ensures '<' !in " " + a + " " + b
  {
    DigitsHaveNoMarkup(a);
    DigitsHaveNoMarkup(b);
  }

  lemma DigitTokensPair(x: nat, y: nat)
    ensures DigitTokens([NatToString(x), NatToString(y)]) == [x, y]
  {
    var a, b := NatToString(x), NatToString(y);
    assert [a, b][1..] == [b];
    assert [b][1..] == [];
  }

  // ---------------------------------------------------------------------
  // format_winning_message

  function NumbersText(numbers: seq<int>, sep: string): string
  {
    Join(MapSeq(IntToString, numbers), sep)
  }

  /** format_winning_message: one header line of every number, comma-separated. */
  function FormatWinningMessage(numbers: seq<int>): (r: string)
    ensures r == "# " + NumbersText(numbers, ", ")
  {
    if |numbers| == 1 then "# " + IntToString(numbers[0])
    else "# " + NumbersText(numbers, ", ")
  }

  /**
   * The header reads back: it starts with "# ", and splitting the rest on ','
   * and parsing every piece gives the winning numbers in draw order.
   */
  lemma WinningMessageReadBack(numbers: seq<int>)
    requires numbers != []
    ensures var r := FormatWinningMessage(numbers);
      |r| > 2 && r[..2] == "# " && ParseAll(Split(r[2..], ',')) == Some(numbers)
  {
    var r := FormatWinningMessage(numbers);
    CommaListReadBack(numbers);
    assert r[2..] == NumbersText(numbers, ", ");
  }

  // ---------------------------------------------------------------------
  // create_verification_file

  const FileBanner: string :=
    "╔══════════════════════════════════════════════════════════════╗\n" +
    "║          RANDOM.ORG VERIFICATION DATA                        ║\n" +
    "╚══════════════════════════════════════════════════════════════╝\n" +
    "\n" +
    "WINNING NUMBER(S): "

  /** The box-drawing character that the file's section rules are made of. */
  const RuleChar: char := '═'

  /** A section rule: 63 rule characters and a newline. */
  const Rule: string := [RuleChar] + "══════════════════════════════════════════════════════════════\n"

  const FileInstructions: string :=
    "\n\n" +
    Rule + "HOW TO VERIFY:\n" + Rule +
    "\n" +
    "1. Go to: https://api.random.org/verify\n" +
    "\n" +
    "2. Copy the \"RANDOM DATA\" section below (everything between the \n" +
    "   ═══ markers) and paste it into the first field on the page\n" +
    "\n" +
    "3. Copy the \"SIGNATURE\" section below and paste it into the \n" +
    "   second field on the page\n" +
    "\n" +
    "4. Click the \"Verify\" button\n" +
    "\n" +
    "5. If verification succeeds, you'll see a green checkmark \n" +
    "   confirming these numbers were genuinely generated by \n" +
    "   Random.org and have not been tampered with\n" +
    "\n" +
    Rule + "RANDOM DATA:\n" + Rule +
    "\n"

  const SignatureHeading: string := "\n\n" + Rule + "SIGNATURE:\n" + Rule + "\n"

  const FileTrailer: string :=
    "\n\n" +
    Rule + "TECHNICAL DETAILS:\n" + Rule +
    "\n" +
    "This verification uses cryptographic signatures to prove that:\n" +
    "• These numbers were generated by Random.org's servers\n" +
    "• The numbers have not been modified after generation\n" +
    "• The generation parameters (range, count) are authentic\n" +
    "• The timestamp shows when generation occurred\n" +
    "\n" +
    "Random.org uses a digital signature that can only be created by\n" +
    "their servers. If the signature verifies successfully, it's\n" +
    "mathematically impossible for these numbers to have been faked\n" +
    "or altered.\n" +
    "\n" +
    "For more information about Random.org's verification system:\n" +
    "https://www.random.org/faq/#Q4.3\n"

  /** The fixed text of the verification file, around its three variable parts. */
  datatype FileTemplate = FileTemplate(banner: string, instructions: string, heading: string, trailer: string)

  const VerificationTemplate: FileTemplate := FileTemplate(FileBanner, FileInstructions, SignatureHeading, FileTrailer)

  /** The template filled with the numbers line, the payload and the signature. */
  function Fill(t: FileTemplate, numbersText: string, payload: string, signature: string): string
  {
    t.banner + numbersText + t.instructions + payload + t.heading + signature + t.trailer
  }

  /** `piece` sits in `r` starting at index `at`. */
  predicate Occurs(r: string, piece: string, at: nat)
  {
    at + |piece| <= |r| && r[at..at + |piece|] == piece
  }

  function PayloadAt(t: FileTemplate, numbersText: string): nat
  {
    |t.banner| + |numbersText| + |t.instructions|
  }

  function SignatureAt(t: FileTemplate, numbersText: string, payload: string): nat
  {
    PayloadAt(t, numbersText) + |payload| + |t.heading|
  }

  /** Each variable part can be cut back out of a filled template at its offset. */
  lemma FillLayout(t: FileTemplate, numbersText: string, payload: string, signature: string)
    ensures var r := Fill(t, numbersText, payload, signature);
      && |r| == SignatureAt(t, numbersText, payload) + |signature| + |t.trailer|
      && Occurs(r, numbersText, |t.banner|)
      && Occurs(r, payload, PayloadAt(t, numbersText))
      && Occurs(r, signature, SignatureAt(t, numbersText, payload))
  {
    var r := Fill(t, numbersText, payload, signature);
    assert r == t.banner + (numbersText + (t.instructions + payload + t.heading + signature + t.trailer));
    assert r == (t.banner + numbersText + t.instructions) + (payload + (t.heading + signature + t.trailer));
    assert r == (t.banner + numbersText + t.instructions + payload + t.heading) + (signature + t.trailer);
  }

  /** Two filled templates with the same numbers and payload length agree only when payload and signature agree. */
  lemma FillInjective(t: FileTemplate, numbersText: string, p1: string, s1: string, p2: string, s2: string)
    requires |p1| == |p2|
    requires Fill(t, numbersText, p1, s1) == Fill(t, numbersText, p2, s2)
    ensures p1 == p2 && s1 == s2
  {
    FillLayout(t, numbersText, p1, s1);
    FillLayout(t, numbersText, p2, s2);
  }

  /** create_verification_file */
  function VerificationFileText(numbers: seq<int>, payload: string, signature: string): string
  {
    Fill(VerificationTemplate, NumbersText(numbers, ", "), payload, signature)
  }

  /**
   * The verification file shows the numbers joined with ", " right after the
   * banner, and copies the payload and the signature verbatim.
   */
  lemma VerificationFileLayout(numbers: seq<int>, payload: string, signature: string)
    ensures var r := VerificationFileText(numbers, payload, signature);
      var n := NumbersText(numbers, ", ");
      && Occurs(r, n, |VerificationTemplate.banner|)
      && Occurs(r, payload, PayloadAt(VerificationTemplate, n))
      && Occurs(r, signature, SignatureAt(VerificationTemplate, n, payload))
  {
    FillLayout(VerificationTemplate, NumbersText(numbers, ", "), payload, signature);
  }

  /** In a filled template, the first `c` at or after the payload's offset is the heading's first `c`, when the payload holds none. */
  lemma FirstAfterPayload(t: FileTemplate, numbersText: string, p: string, sig: string, c: char)
    requires c in t.heading && c !in p
    ensures var r := Fill(t, numbersText, p, sig);
      var q := PayloadAt(t, numbersText) + |p| + FirstIndex(t.heading, c);
      q < |r| && r[q] == c && forall j :: PayloadAt(t, numbersText) <= j < q ==> r[j] != c
  {
    var h := FirstIndex(t.heading, c);
    var a := t.banner + numbersText + t.instructions;
    var r := Fill(t, numbersText, p, sig);
    assert r == a + p + t.heading + (sig + t.trailer);
    forall j | |a| <= j < |a| + |p| + h ensures r[j] != c {
      if j < |a| + |p| {
        assert r[j] == p[j - |a|];
      } else {
        assert r[j] == t.heading[..h][j - |a| - |p|];
      }
    }
  }

  /**
   * When neither payload holds `c` and `c` occurs in the heading, the first
   * `c` after the payload's offset fixes where the payload ends, so equal
   * filled templates have payloads of equal length.
   */
  lemma FillPayloadLength(t: FileTemplate, numbersText: string, p1: string, s1: string, p2: string, s2: string, c: char)
    requires c in t.heading && c !in p1 && c !in p2
    requires Fill(t, numbersText, p1, s1) == Fill(t, numbersText, p2, s2)
    ensures |p1| == |p2|
  {
    FirstAfterPayload(t, numbersText, p1, s1, c);
    FirstAfterPayload(t, numbersText, p2, s2, c);
  }

  lemma RuleInSignatureHeading()
    ensures RuleChar in SignatureHeading
  {
    assert SignatureHeading[2] == Rule[0];
  }

  /**
   * A verification file determines its payload and signature, for payloads
   * without the rule character.
   */
  lemma VerificationFileInjective(numbers: seq<int>, p1: string, s1: string, p2: string, s2: string)
    requires RuleChar !in p1 && RuleChar !in p2
    requires VerificationFileText(numbers, p1, s1) == VerificationFileText(numbers, p2, s2)
    ensures p1 == p2 && s1 == s2
  {
    RuleInSignatureHeading();
    FillPayloadLength(VerificationTemplate, NumbersText(numbers, ", "), p1, s1, p2, s2, RuleChar);
    FillInjective(VerificationTemplate, NumbersText(numbers, ", "), p1, s1, p2, s2);
  }

  lemma AsciiLacksRule(p: string)
    requires IsAscii(p)
    ensures RuleChar !in p
  {
  }

  /**
   * The payloads format_verification_data writes are ASCII and so never hold
   * the rule character: a verification file built from one determines the
   * payload and the signature.
   */
  lemma PayloadFileInjective(numbers: seq<int>, d1: RandomOrg.RandomData, s1: string, d2: RandomOrg.RandomData, s2: string)
    requires VerificationFileText(numbers, RandomOrg.FormatVerificationData(d1), s1) ==
             VerificationFileText(numbers, RandomOrg.FormatVerificationData(d2), s2)
    ensures RandomOrg.FormatVerificationData(d1) == RandomOrg.FormatVerificationData(d2) && s1 == s2
  {
    var p1, p2 := RandomOrg.FormatVerificationData(d1), RandomOrg.FormatVerificationData(d2);
    RandomOrg.PayloadAscii(d1);
    RandomOrg.PayloadAscii(d2);
    AsciiLacksRule(p1);
    AsciiLacksRule(p2);
    VerificationFileInjective(numbers, p1, s1, p2, s2);
  }
}
