/**
 * The /call pipeline of Psyduck/command_handler.py: the checks a request
 * passes before anything is drawn, the draw, what is published and stored,
 * and the single line appended to the called-links ledger at the very end.
 *
 * Everything the pipeline asks of the outside world comes in a World value:
 * what fetching the post gave, the ledger as read at the start and as
 * re-read before the append, the answers of every Random.org attempt, the
 * ids Discord gives the messages it sends (None when sending raises), and
 * the guild member match for a Reddit name. The stores, the key manager and
 * the roll logger are the objects of the other modules.
 */
module CommandHandler {
  import opened Text
  import Utils
  import Reddit
  import RandomOrg
  import Database
  import LinkStore
  import RollLog
  import LinkView

  // ---------------------------------------------------------------------
  // The URL shape check: ^https?://(www\.)?(reddit\.com|redd\.it)/ ignoring case

  /** `reddit.com/` or `redd.it/` at index `i` of the lower-cased url. */
  predicate HostAt(lower: string, i: nat)
  {
    StartsAt(lower, i, "reddit.com/") || StartsAt(lower, i, "redd.it/")
  }

  /** What follows the scheme: an optional `www.`, then the host. */
  predicate HostAfterScheme(lower: string, i: nat)
  {
    (StartsAt(lower, i, "www.") && HostAt(lower, i + 4)) || HostAt(lower, i)
  }

  /** re.match of the pattern with re.IGNORECASE: the lower-cased url matches the lower-case pattern. */
  predicate IsRedditUrl(url: string)
  {
    var lower := ToLower(url);
    (StartsAt(lower, 0, "http://") && HostAfterScheme(lower, 7)) ||
    (StartsAt(lower, 0, "https://") && HostAfterScheme(lower, 8))
  }

  lemma LowerIdempotent(s: string)
    ensures ToLower(ToLower(s)) == ToLower(s)
  {
  }

  /** Letter case never decides the check. */
  lemma UrlCheckIgnoresCase(url: string)
    ensures IsRedditUrl(url) <==> IsRedditUrl(ToLower(url))
  {
    LowerIdempotent(url);
  }

  /** The canonical link of a post, as get_post_info builds it, passes the check. */
  lemma CanonicalUrlPasses(permalink: string)
    requires permalink != [] && permalink[0] == '/'
    ensures IsRedditUrl(Reddit.CanonicalUrl(permalink))
  {
    var url := Reddit.CanonicalUrl(permalink);
    var lower := ToLower(url);
    assert url == "https://reddit.com" + permalink;
    assert lower[..8] == "https://";
    assert lower[8..19] == "reddit.com/";
  }

  // ---------------------------------------------------------------------
  // Admission: the early returns of process_call_command before the draw

  /** A /call request: the url as typed, the optional slot count, the winner count, who asked. */
  datatype Request = Request(url: string, spots: Option<int>, winners: int, callerId: int, callerName: string)

  predicate IsAdmin(req: Request) { req.callerId == LinkView.AdminUserId }

  /** What the fetch block gave: no Reddit manager configured, an exception raised inside the block (get_post_info itself turns its errors into None, so this is a notice send that raised), or the record (None when empty). */
  datatype Fetch = NoManager | FetchRaised | Fetched(info: Option<Reddit.PostInfo>)

  /** Why a request is turned away, each with its own notice to the admin. */
  datatype Rejection =
    | BadUrl
    | FetchFailed
    | FetchError
    | AlreadyCalled(url: string)
    | SpotsUnparsed
    | SpotsMissing
    | InvalidParameters(message: string)
    | TooFewParticipants(participants: nat)

  datatype Admission = Rejected(reason: Rejection) | Admitted(spots: int, info: Option<Reddit.PostInfo>)

  /** The checks after the slot count is settled: it must be known, validate_parameters must pass, and there must be enough assigned spots. */
  function CheckCounts(winners: int, spots: Option<int>, info: Option<Reddit.PostInfo>): (a: Admission)
    ensures a.Admitted? <==>
      spots.Some? && Utils.ValidateParameters(Some(winners), spots).0 &&
      (info.Some? && |info.value.spotAssignments| > 0 ==> winners <= |info.value.spotAssignments|)
    ensures a.Admitted? ==> a.spots == spots.value && a.info == info
    ensures a == Rejected(SpotsMissing) <==> spots.None?
    ensures a.Rejected? && a.reason.InvalidParameters? ==>
      Utils.ValidateParameters(Some(winners), spots) == (false, Some(a.reason.message))
  {
    if spots.None? then Rejected(SpotsMissing)
    else
      var (valid, message) := Utils.ValidateParameters(Some(winners), spots);
      if !valid then Rejected(InvalidParameters(message.value))
      else if info.Some? && |info.value.spotAssignments| > 0 && winners > |info.value.spotAssignments| then
        Rejected(TooFewParticipants(|info.value.spotAssignments|))
      else Admitted(spots.value, info)
  }

  /** process_call_command up to the draw: the first check that fails, or the slot count and post record to draw with. */
  function Admit(req: Request, fetch: Fetch, ledger: seq<string>): (a: Admission)
    ensures a == Rejected(BadUrl) <==> !IsRedditUrl(req.url)
    ensures a.Rejected? && a.reason.AlreadyCalled? ==>
      !IsAdmin(req) && fetch.Fetched? && fetch.info.Some? && a.reason.url == fetch.info.value.url && a.reason.url in ledger
    ensures a.Admitted? ==>
      IsRedditUrl(req.url) && Utils.ValidateParameters(Some(req.winners), Some(a.spots)).0 &&
      (fetch.NoManager? ==> a.info.None?) &&
      (!fetch.NoManager? ==> fetch == Fetched(a.info) && a.info.Some?)
    ensures a.Admitted? && a.info.Some? ==>
      (a.info.value.url in ledger ==> IsAdmin(req)) &&
      (|a.info.value.spotAssignments| > 0 ==> req.winners <= |a.info.value.spotAssignments|)
    ensures a.Admitted? && req.spots.Some? ==> a.spots == req.spots.value
    ensures a.Admitted? && req.spots.None? ==>
      a.info.Some? && a.info.value.title != [] && a.spots > 0 &&
      Utils.ParseSpotsFromTitle(a.info.value.title) == Some(a.spots as nat)
  {
    if !IsRedditUrl(req.url) then Rejected(BadUrl)
    else
      match fetch
      case FetchRaised => Rejected(FetchError)
      case NoManager => CheckCounts(req.winners, req.spots, None)
      case Fetched(info) =>
        if info.None? then Rejected(FetchFailed)
        else if info.value.url in ledger && !IsAdmin(req) then Rejected(AlreadyCalled(info.value.url))
        else if req.spots.None? && info.value.title != [] then
          var parsed := Utils.ParseSpotsFromTitle(info.value.title);
          if parsed.None? || parsed.value == 0 then Rejected(SpotsUnparsed)
          else CheckCounts(req.winners, Some(parsed.value as int), info)
        else CheckCounts(req.winners, req.spots, info)
  }

  /** Anyone but the admin is stopped by a post already in the ledger, before anything is drawn. */
  lemma CalledPostRefused(req: Request, info: Reddit.PostInfo, ledger: seq<string>)
    requires IsRedditUrl(req.url) && !IsAdmin(req) && info.url in ledger
    ensures Admit(req, Fetched(Some(info)), ledger) == Rejected(AlreadyCalled(info.url))
  {
  }

  /** The admin re-rolls a called post exactly as if it had not been called. */
  lemma AdminBypassesLedger(req: Request, info: Reddit.PostInfo, ledger: seq<string>)
    requires IsAdmin(req)
    ensures Admit(req, Fetched(Some(info)), ledger) == Admit(req, Fetched(Some(info)), [])
  {
  }

  /** A title "… N Spots …" supplies the slot count when none was given. */
  lemma SpotsTakenFromTitle(req: Request, info: Reddit.PostInfo, ledger: seq<string>,
                            before: string, n: nat, word: string, after: string)
    requires IsRedditUrl(req.url) && req.spots.None? && (info.url in ledger ==> IsAdmin(req))
    requires forall i :: 0 <= i < |before| ==> !Utils.SpotsMatchAt(before + NatToString(n) + " " + word + after, i)
    requires word == "Spots" || word == "spots"
    requires info.title == before + NatToString(n) + " " + word + after
    ensures n == 0 ==> Admit(req, Fetched(Some(info)), ledger) == Rejected(SpotsUnparsed)
    ensures n > 0 ==> Admit(req, Fetched(Some(info)), ledger) == CheckCounts(req.winners, Some(n), Some(info))
  {
    Utils.TitleWithSpots(before, n, word, after);
  }

  // ---------------------------------------------------------------------
  // The ledger: called_links.txt

  /**
   * The line appended at the end of a completed call: the post's canonical
   * url, unless this is the admin re-rolling a post that was in the ledger at
   * the start, or the url is already there when the ledger is re-read.
   */
  function LedgerEntry(isAdmin: bool, info: Option<Reddit.PostInfo>, ledger: seq<string>, reloaded: seq<string>)
    : (e: Option<string>)
    ensures e.Some? ==> info.Some? && e.value == info.value.url && e.value !in reloaded
    ensures e.Some? ==> !isAdmin || e.value !in ledger
    ensures e.None? && info.Some? ==> (isAdmin && info.value.url in ledger) || info.value.url in reloaded
  {
    if info.None? then None
    else
      var link := info.value.url;
      if isAdmin && link in ledger then None
      else if link in reloaded then None
      else Some(link)
  }

  predicate NoRepeats(lines: seq<string>)
  {
    forall i, j :: 0 <= i < j < |lines| ==> lines[i] != lines[j]
  }

  function Appended(reloaded: seq<string>, entry: Option<string>): seq<string>
  {
    if entry.Some? then reloaded + [entry.value] else reloaded
  }

  /** The ledger grows by at most one line and never gains a repeated url. */
  lemma LedgerKeepsNoRepeats(isAdmin: bool, info: Option<Reddit.PostInfo>, ledger: seq<string>, reloaded: seq<string>)
    requires NoRepeats(reloaded)
    ensures NoRepeats(Appended(reloaded, LedgerEntry(isAdmin, info, ledger, reloaded)))
    ensures |Appended(reloaded, LedgerEntry(isAdmin, info, ledger, reloaded))| <= |reloaded| + 1
    ensures Appended(reloaded, LedgerEntry(isAdmin, info, ledger, reloaded))[..|reloaded|] == reloaded
  {
    var e := LedgerEntry(isAdmin, info, ledger, reloaded);
    if e.Some? {
      var r := reloaded + [e.value];
      forall i, j | 0 <= i < j < |r| ensures r[i] != r[j] {
        if j == |reloaded| {
          assert r[i] == reloaded[i];
        }
      }
    }
  }

  // ---------------------------------------------------------------------
  // The content of the results message

  const UnknownName: string := "Unknown"
  const TooLongNotice: string := "List of winners is too long. See desc. for details."
  const ContentLimit: nat := 256

  /** `spot_assignments.get(number, "Unknown")` on the integer-keyed map. */
  function NameOf(assignments: map<nat, string>, number: int): (name: string)
    ensures name == UnknownName || (number >= 0 && number as nat in assignments && assignments[number as nat] == name)
    ensures number >= 0 && number as nat in assignments ==> name == assignments[number as nat]
  {
    if number >= 0 && number as nat in assignments then assignments[number as nat] else UnknownName
  }

  /**
   * One line of the winners list. The share shown after the profile link is
   * always 0%, because the post record never carries per-user slot counts.
   */
  function WinnerLine(assignments: map<nat, string>, number: int): string
  {
    var name := NameOf(assignments, number);
    if name != UnknownName then IntToString(number) + " - [" + name + "](https://reddit.com/u/" + name + ") 0%"
    else IntToString(number) + " - " + UnknownName
  }

  function WinnerLines(assignments: map<nat, string>, numbers: seq<int>): (r: seq<string>)
    ensures |r| == |numbers|
    decreases |numbers|
  {
    if numbers == [] then [] else WinnerLines(assignments, numbers[..|numbers| - 1]) + [WinnerLine(assignments, numbers[|numbers| - 1])]
  }

  function NumberLines(numbers: seq<int>): (r: seq<string>)
    ensures |r| == |numbers|
    decreases |numbers|
  {
    if numbers == [] then [] else NumberLines(numbers[..|numbers| - 1]) + [IntToString(numbers[|numbers| - 1])]
  }

  predicate HasAssignments(info: Option<Reddit.PostInfo>)
  {
    info.Some? && |info.value.spotAssignments| > 0
  }

  /** The first line of the results message: singular for one number, plural otherwise. */
  function ContentHeader(info: Option<Reddit.PostInfo>, count: nat): string
  {
    if HasAssignments(info) then (if count == 1 then "# Winner:" else "# Winners:")
    else (if count == 1 then "# Winning number:" else "# Winning numbers:")
  }

  /** The winners list when the post assigns spots, the bare numbers otherwise. */
  function ContentLines(info: Option<Reddit.PostInfo>, numbers: seq<int>): seq<string>
  {
    if HasAssignments(info) then WinnerLines(info.value.spotAssignments, numbers) else NumberLines(numbers)
  }

  /** The results message before the length check: header, blank line, one line per number. */
  function FullContent(info: Option<Reddit.PostInfo>, numbers: seq<int>): string
  {
    ContentHeader(info, |numbers|) + "\n\n" + Join(ContentLines(info, numbers), "\n")
  }

  /** The content of the results message: the full content if it is shorter than 256 characters, the notice otherwise. */
  function WinningContent(info: Option<Reddit.PostInfo>, numbers: seq<int>): (r: string)
    ensures |r| < ContentLimit
    ensures |FullContent(info, numbers)| < ContentLimit ==> r == FullContent(info, numbers)
    ensures |FullContent(info, numbers)| >= ContentLimit ==> r == TooLongNotice
  {
    var full := FullContent(info, numbers);
    if |full| >= ContentLimit then TooLongNotice else full
  }

  /** The loop of process_call_command that builds the winners list, then the content around it. */
  method BuildWinningContent(info: Option<Reddit.PostInfo>, numbers: seq<int>) returns (content: string)
    ensures content == WinningContent(info, numbers)
  {
    var body: seq<string>;
    if HasAssignments(info) {
      var assignments := info.value.spotAssignments;
      body := [];
      var i := 0;
      while i < |numbers|
        invariant 0 <= i <= |numbers|
        invariant body == WinnerLines(assignments, numbers[..i])
      {
        assert numbers[..i + 1][..i] == numbers[..i];
        body := body + [WinnerLine(assignments, numbers[i])];
        i := i + 1;
      }
      assert numbers[..i] == numbers;
    } else {
      body := NumberLines(numbers);
    }
    content := ContentHeader(info, |numbers|) + "\n\n" + Join(body, "\n");
    if |content| >= ContentLimit {
      content := TooLongNotice;
    }
  }

  /** The i-th winner line is the line of the i-th number. */
  lemma {:induction false} WinnerLinesAt(assignments: map<nat, string>, numbers: seq<int>, i: nat)
    requires i < |numbers|
    ensures WinnerLines(assignments, numbers)[i] == WinnerLine(assignments, numbers[i])
    decreases |numbers|
  {
    var n := |numbers| - 1;
    var front := numbers[..n];
    var last := WinnerLine(assignments, numbers[n]);
    var lines := WinnerLines(assignments, front);
    assert WinnerLines(assignments, numbers) == lines + [last];
    if i < n {
      WinnerLinesAt(assignments, front, i);
      assert front[i] == numbers[i];
      assert (lines + [last])[i] == lines[i];
    } else {
      assert (lines + [last])[i] == last;
    }
  }

  /** The i-th number line is the i-th number in decimal. */
  lemma {:induction false} NumberLinesAt(numbers: seq<int>, i: nat)
    requires i < |numbers|
    ensures NumberLines(numbers)[i] == IntToString(numbers[i])
    decreases |numbers|
  {
    var n := |numbers| - 1;
    var front := numbers[..n];
    assert NumberLines(numbers) == NumberLines(front) + [IntToString(numbers[n])];
    if i < n {
      NumberLinesAt(front, i);
      assert front[i] == numbers[i];
    }
  }

  predicate NamesOnOneLine(assignments: map<nat, string>)
  {
    forall n :: n in assignments ==> '\n' !in assignments[n]
  }

  lemma NoNewlineConcat(a: string, b: string)
    requires '\n' !in a && '\n' !in b
    ensures '\n' !in a + b
  {
  }

  lemma WinnerLineOneLine(assignments: map<nat, string>, number: int)
    requires NamesOnOneLine(assignments)
    ensures '\n' !in WinnerLine(assignments, number)
  {
    var s := IntToString(number);
    RollLog.NumberShape(number);
    var name := NameOf(assignments, number);
    assert '\n' !in name;
    var tail := ") 0%";
    var mid := "](https://reddit.com/u/";
    var open := " - [";
    assert '\n' !in tail && '\n' !in mid && '\n' !in open;
    NoNewlineConcat(s, open);
    NoNewlineConcat(s + open, name);
    NoNewlineConcat(s + open + name, mid);
    NoNewlineConcat(s + open + name + mid, name);
    NoNewlineConcat(s + open + name + mid + name, tail);
    NoNewlineConcat(s, " - " + UnknownName);
  }

  lemma LinesWithoutNewline(info: Option<Reddit.PostInfo>, numbers: seq<int>)
    requires HasAssignments(info) ==> NamesOnOneLine(info.value.spotAssignments)
    ensures forall i :: 0 <= i < |numbers| ==> '\n' !in ContentLines(info, numbers)[i]
  {
    forall i | 0 <= i < |numbers| ensures '\n' !in ContentLines(info, numbers)[i] {
      if HasAssignments(info) {
        WinnerLinesAt(info.value.spotAssignments, numbers, i);
        WinnerLineOneLine(info.value.spotAssignments, numbers[i]);
      } else {
        NumberLinesAt(numbers, i);
        RollLog.NumberShape(numbers[i]);
      }
    }
  }

  /** The full content reads back line by line: the header, a blank line, then one line per drawn number, in draw order. */
  lemma FullContentLines(info: Option<Reddit.PostInfo>, numbers: seq<int>)
    requires numbers != []
    requires HasAssignments(info) ==> NamesOnOneLine(info.value.spotAssignments)
    ensures Split(FullContent(info, numbers), '\n') == [ContentHeader(info, |numbers|), ""] + ContentLines(info, numbers)
  {
    var header := ContentHeader(info, |numbers|);
    var body := ContentLines(info, numbers);
    LinesWithoutNewline(info, numbers);
    var parts := [header, ""] + body;
    assert parts[1..] == [""] + body && parts[1..][1..] == body;
    assert Join(parts[1..], "\n") == "" + "\n" + Join(body, "\n");
    assert Join(parts, "\n") == header + "\n" + ("" + "\n" + Join(body, "\n"));
    assert FullContent(info, numbers) == Join(parts, "\n");
    forall k | 0 <= k < |parts| ensures '\n' !in parts[k] {
      if k >= 2 {
        assert parts[k] == body[k - 2];
      }
    }
    SplitJoin(parts, '\n');
  }

  /** Without assigned spots, every line after the header reads back as the drawn number. */
  lemma NumbersReadBack(numbers: seq<int>, i: nat)
    requires i < |numbers|
    ensures ParseInt(ContentLines(None, numbers)[i]) == Some(numbers[i])
  {
    NumberLinesAt(numbers, i);
    ParseIntToString(numbers[i]);
  }

  /** A winner line names the winner exactly when the number is assigned to a name other than "Unknown". */
  lemma WinnerLineShowsName(assignments: map<nat, string>, number: int)
    ensures WinnerLine(assignments, number) == IntToString(number) + " - Unknown" <==>
      !(number >= 0 && number as nat in assignments) || assignments[number as nat] == UnknownName
  {
    var s := IntToString(number);
    var name := NameOf(assignments, number);
    if name != UnknownName {
      var line := WinnerLine(assignments, number);
      assert line[|s| + 3] == '[';
      assert (s + " - Unknown")[|s| + 3] == 'U';
    }
  }

  // ---------------------------------------------------------------------
  // send_general_chat_announcement

  /** The names of the assigned winners, in draw order, repeats kept: the list stored for the announcement. */
  function KnownWinners(assignments: map<nat, string>, numbers: seq<int>): (r: seq<string>)
    ensures |r| <= |numbers|
    ensures forall i :: 0 <= i < |r| ==> r[i] != UnknownName && r[i] in assignments.Values
    decreases |numbers|
  {
    if numbers == [] then []
    else
      var earlier := KnownWinners(assignments, numbers[..|numbers| - 1]);
      var name := NameOf(assignments, numbers[|numbers| - 1]);
      if name != UnknownName then earlier + [name] else earlier
  }

  /** How many of the drawn numbers have a real name. */
  function CountKnown(assignments: map<nat, string>, numbers: seq<int>): nat
    decreases |numbers|
  {
    if numbers == [] then 0
    else
      CountKnown(assignments, numbers[..|numbers| - 1]) +
      (if NameOf(assignments, numbers[|numbers| - 1]) != UnknownName then 1 else 0)
  }

  /**
   * The stored list holds one entry per drawn number with a real name and
   * nothing else: the name of the i-th number sits after the names of the
   * known numbers drawn before it.
   */
  lemma {:induction false} KnownWinnersAt(assignments: map<nat, string>, numbers: seq<int>)
    ensures |KnownWinners(assignments, numbers)| == CountKnown(assignments, numbers)
    ensures forall i :: 0 <= i < |numbers| && NameOf(assignments, numbers[i]) != UnknownName ==>
      CountKnown(assignments, numbers[..i]) < |KnownWinners(assignments, numbers)| &&
      KnownWinners(assignments, numbers)[CountKnown(assignments, numbers[..i])] == NameOf(assignments, numbers[i])
    decreases |numbers|
  {
    if numbers != [] {
      var n := |numbers| - 1;
      var p := numbers[..n];
      KnownWinnersAt(assignments, p);
      var earlier := KnownWinners(assignments, p);
      var r := KnownWinners(assignments, numbers);
      assert |earlier| <= |r| && r[..|earlier|] == earlier;
      forall i | 0 <= i < |numbers| && NameOf(assignments, numbers[i]) != UnknownName
        ensures CountKnown(assignments, numbers[..i]) < |r| &&
          r[CountKnown(assignments, numbers[..i])] == NameOf(assignments, numbers[i])
      {
        if i < n {
          assert numbers[..i] == p[..i] && numbers[i] == p[i];
          assert r[CountKnown(assignments, p[..i])] == earlier[CountKnown(assignments, p[..i])];
        } else {
          assert numbers[..i] == p;
        }
      }
    }
  }

  /** When every drawn number is assigned to a real name, one name is stored per number, in draw order. */
  lemma {:induction false} AllWinnersKnown(assignments: map<nat, string>, numbers: seq<int>)
    requires forall i :: 0 <= i < |numbers| ==> NameOf(assignments, numbers[i]) != UnknownName
    ensures |KnownWinners(assignments, numbers)| == |numbers|
    ensures forall i :: 0 <= i < |numbers| ==> KnownWinners(assignments, numbers)[i] == NameOf(assignments, numbers[i])
    decreases |numbers|
  {
    if numbers != [] {
      var p := numbers[..|numbers| - 1];
      forall i | 0 <= i < |p| ensures NameOf(assignments, p[i]) != UnknownName {
        assert p[i] == numbers[i];
      }
      AllWinnersKnown(assignments, p);
    }
  }

  /** The loop of send_general_chat_announcement: the known winners in draw order, and their mentions. */
  method AnnouncementMentions(linkDb: LinkStore.LinkDatabase, assignments: map<nat, string>, numbers: seq<int>,
                              guildMatch: string -> Option<string>)
    returns (names: seq<string>, mentions: seq<string>)
    ensures names == KnownWinners(assignments, numbers)
    ensures mentions == LinkView.Mentions(linkDb.links, guildMatch, names)
  {
    names := [];
    mentions := [];
    var i := 0;
    while i < |numbers|
      invariant 0 <= i <= |numbers|
      invariant names == KnownWinners(assignments, numbers[..i])
      invariant mentions == LinkView.Mentions(linkDb.links, guildMatch, names)
    {
      assert numbers[..i + 1][..i] == numbers[..i];
      var name := NameOf(assignments, numbers[i]);
      if name != UnknownName {
        assert (names + [name])[..|names|] == names;
        names := names + [name];
        var id := linkDb.GetDiscordId(name);
        if LinkView.Truthy(id) {
          mentions := mentions + ["<@" + id.value + ">"];
        } else if guildMatch(name).Some? {
          mentions := mentions + [guildMatch(name).value];
        }
      }
      i := i + 1;
    }
    assert numbers[..i] == numbers;
  }

  /**
   * The announcement: nothing unless the general channel exists and the post
   * assigns spots; otherwise the content sent, and the stored names under the
   * announcement's id once it is sent.
   */
  method SendGeneralChatAnnouncement(linkDb: LinkStore.LinkDatabase, numbers: seq<int>, info: Option<Reddit.PostInfo>,
                                     generalChannel: Option<int>, announcementId: Option<int>,
                                     guildMatch: string -> Option<string>)
    returns (sent: Option<string>)
    modifies linkDb
    ensures linkDb.links == old(linkDb.links)
    ensures sent.Some? <==> generalChannel.Some? && HasAssignments(info) && announcementId.Some?
    ensures sent.Some? ==>
      var names := KnownWinners(info.value.spotAssignments, numbers);
      sent == Some(LinkView.AnnouncementContent(|numbers|, LinkView.Mentions(linkDb.links, guildMatch, names))) &&
      linkDb.messages == old(linkDb.messages)[announcementId.value := LinkStore.MessageMapping(generalChannel.value, names)]
    ensures sent.None? ==> linkDb.messages == old(linkDb.messages)
  {
    if generalChannel.None? || !HasAssignments(info) {
      return None;
    }
    var names, mentions := AnnouncementMentions(linkDb, info.value.spotAssignments, numbers, guildMatch);
    if announcementId.None? {
      return None;
    }
    sent := Some(LinkView.AnnouncementContent(|numbers|, mentions));
    linkDb.StoreMessageMapping(announcementId.value, generalChannel.value, names);
  }

  /** When every drawn number has a real name, rebuilding the announcement after a link gives the same content as sending it. */
  lemma RebuildMatchesAnnouncement(links: map<string, LinkStore.Link>, guildMatch: string -> Option<string>,
                                   assignments: map<nat, string>, numbers: seq<int>)
    requires forall i :: 0 <= i < |numbers| ==> NameOf(assignments, numbers[i]) != UnknownName
    ensures var names := KnownWinners(assignments, numbers);
      LinkView.AnnouncementContent(|names|, LinkView.Mentions(links, guildMatch, names)) ==
      LinkView.AnnouncementContent(|numbers|, LinkView.Mentions(links, guildMatch, names))
  {
    AllWinnersKnown(assignments, numbers);
  }

  /** Two numbers drawn, one of them unassigned: the announcement says WINNERS, the rebuilt message WINNER. */
  lemma RebuildHeaderCanDiffer()
    ensures var assignments := map[5 := "alice"];
      var names := KnownWinners(assignments, [5, 7]);
      var none: string -> Option<string> := _ => None;
      LinkView.AnnouncementContent(2, LinkView.Mentions(map[], none, names)) == "# WINNERS" &&
      LinkView.AnnouncementContent(|names|, LinkView.Mentions(map[], none, names)) == "# WINNER"
  {
    var assignments := map[5 := "alice"];
    assert [5, 7][..1] == [5] && [5][..0] == [];
    assert NameOf(assignments, 7) == UnknownName;
    assert KnownWinners(assignments, [5]) == ["alice"];
    var names := KnownWinners(assignments, [5, 7]);
    assert names == ["alice"];
    var none: string -> Option<string> := _ => None;
    assert ["alice"][..0] == [];
    assert LinkView.Mentions(map[], none, names) == [];
  }

  // ---------------------------------------------------------------------
  // process_call_command

  /** Everything the pipeline learns from outside: see the module comment. */
  datatype World = World(
    fetch: Fetch,
    ledger: seq<string>,
    attempts: seq<RandomOrg.Attempt>,
    now: int,
    responseId: Option<int>,
    rollChannelFound: bool,
    today: string,
    rollEmbedId: Option<int>,
    rollEdit: RollLog.EditResult,
    storeFails: bool,
    generalChannel: Option<int>,
    announcementId: Option<int>,
    guildMatch: string -> Option<string>,
    reloaded: seq<string>)

  /** What raised after the draw; each reaches the catch-all that tells the admin and marks nothing. */
  datatype Failure = SendRaised | NoPostRecord

  datatype CallOutcome =
    | NotCalled(reason: Rejection)       // an early return before the draw
    | StillDrawing                       // every attempt so far failed; the loop goes on
    | Failed(stage: Failure)
    | Completed(numbers: seq<int>, content: string, announcement: Option<string>)

  /** The verification row stored for a draw, given the payload format_verification_data made of it. */
  function VerificationRow(req: Request, spots: int, info: Option<Reddit.PostInfo>, result: RandomOrg.SignedResult,
                           payload: string): Database.Row
  {
    Database.RowFor(payload, result.signature, result.random.data,
                    info, Some(result.random.completionTime), Some(spots), Some(req.callerName))
  }

  /** The counters after generate_random_numbers over `attempts` and, once a result is in, get_total_requests at `now`. */
  function CountersAfterDraw(keys: seq<string>, start: nat, c: RandomOrg.Counters, attempts: seq<RandomOrg.Attempt>,
                             now: int): RandomOrg.Counters
    requires start < |keys|
  {
    var replayed := RandomOrg.Replay(keys, start, c, attempts[..RandomOrg.AttemptsUsed(attempts)]);
    if RandomOrg.OutcomeOf(attempts).Drawn? then RandomOrg.AfterCheck(keys, replayed, now) else replayed
  }

  /** generate_random_numbers, then get_total_requests and format_verification_data once a result is in. */
  method Draw(rng: RandomOrg.RandomOrgManager, count: int, maxValue: int, attempts: seq<RandomOrg.Attempt>, now: int)
    returns (draw: RandomOrg.DrawOutcome, payload: string)
    requires rng.Valid()
    modifies rng
    ensures rng.Valid() && rng.apiKeys == old(rng.apiKeys)
    ensures draw == RandomOrg.OutcomeOf(attempts)
    ensures draw.Drawn? ==> payload == RandomOrg.FormatVerificationData(draw.result.random)
    ensures rng.currentKeyIndex ==
      RandomOrg.IndexAfter(old(rng.currentKeyIndex), RandomOrg.AttemptsUsed(attempts), |rng.apiKeys|)
    ensures RandomOrg.Counters(rng.requestCounts, rng.lastReset) ==
      CountersAfterDraw(rng.apiKeys, old(rng.currentKeyIndex),
                        RandomOrg.Counters(old(rng.requestCounts), old(rng.lastReset)), attempts, now)
  {
    var requests, waited;
    draw, requests, waited := rng.GenerateRandomNumbers(count, maxValue, attempts);
    payload := "";
    if draw.Drawn? {
      var total, limit := rng.GetTotalRequests(now);
      payload := RandomOrg.FormatVerificationData(draw.result.random);
    }
  }

  /** The roll logger's fields. */
  datatype RollState = RollState(date: Option<string>, messageId: Option<int>, counts: RollLog.Counts)

  /** The roll logger after log_roll of `numbers` on `today`, as RollLog.RollLogger.LogRoll leaves it. */
  ghost predicate RollLogged(before: RollState, today: string, embedId: Option<int>, edit: RollLog.EditResult,
                             numbers: seq<int>, after: RollState)
  {
    && after.date == Some(today)
    && RollLog.Counted(RollLog.DayCounts(before.date, before.counts, today), numbers, after.counts)
    && after.messageId == RollLog.IdAfterUpdate(RollLog.DayMessageId(before.date, before.messageId, today, embedId), edit)
  }

  /** roll_logger.log_roll on the roll-log channel; what it shows there is not used by the pipeline. */
  method LogToHistory(roll: RollLog.RollLogger, today: string, numbers: seq<int>, embedId: Option<int>,
                      edit: RollLog.EditResult)
    requires roll.Valid()
    modifies roll
    ensures roll.Valid()
    ensures RollLogged(old(RollState(roll.currentDate, roll.currentMessageId, roll.rollCounts)), today, embedId, edit,
                       numbers, RollState(roll.currentDate, roll.currentMessageId, roll.rollCounts))
  {
    var shown := roll.LogRoll(today, numbers, embedId, edit);
  }

  /** Whether send_general_chat_announcement sends anything. */
  predicate Announces(w: World, info: Option<Reddit.PostInfo>)
  {
    w.generalChannel.Some? && HasAssignments(info) && w.announcementId.Some?
  }

  /** The announcement's content, when it is sent. */
  function Announcement(links: map<string, LinkStore.Link>, w: World, info: Option<Reddit.PostInfo>,
                        numbers: seq<int>): Option<string>
  {
    if Announces(w, info) then
      Some(LinkView.AnnouncementContent(|numbers|,
             LinkView.Mentions(links, w.guildMatch, KnownWinners(info.value.spotAssignments, numbers))))
    else None
  }

  /** The message table after the announcement: its winners stored under its id, when it is sent. */
  function AnnouncedMessages(messages: map<int, LinkStore.MessageMapping>, w: World, info: Option<Reddit.PostInfo>,
                             numbers: seq<int>): map<int, LinkStore.MessageMapping>
  {
    if Announces(w, info) then
      messages[w.announcementId.value :=
        LinkStore.MessageMapping(w.generalChannel.value, KnownWinners(info.value.spotAssignments, numbers))]
    else messages
  }

  /**
   * Everything publishing a drawn `result` leaves behind. A failed send
   * changes nothing. Otherwise the roll is logged when the roll-log channel
   * exists, the verification row is upserted under the results message's id
   * unless SQLite fails (store_verification swallows that), the announcement
   * goes out, and the call completes with its ledger line exactly when there
   * is a post record.
   */
  ghost predicate Published(req: Request, w: World, spots: int, info: Option<Reddit.PostInfo>,
                            result: RandomOrg.SignedResult, payload: string, links: map<string, LinkStore.Link>,
                            rows0: map<int, Database.Row>, rows: map<int, Database.Row>,
                            messages0: map<int, LinkStore.MessageMapping>, messages: map<int, LinkStore.MessageMapping>,
                            roll0: RollState, roll: RollState, outcome: CallOutcome, appended: Option<string>)
  {
    var numbers := result.random.data;
    if w.responseId.None? then
      outcome == Failed(SendRaised) && appended.None? && rows == rows0 && messages == messages0 && roll == roll0
    else
      && (if w.rollChannelFound then RollLogged(roll0, w.today, w.rollEmbedId, w.rollEdit, numbers, roll)
          else roll == roll0)
      && rows == (if w.storeFails then rows0
                  else rows0[w.responseId.value := VerificationRow(req, spots, info, result, payload)])
      && messages == AnnouncedMessages(messages0, w, info, numbers)
      && (if info.None? then outcome == Failed(NoPostRecord) && appended.None?
          else outcome == Completed(numbers, WinningContent(info, numbers), Announcement(links, w, info, numbers)) &&
               appended == LedgerEntry(IsAdmin(req), info, w.ledger, w.reloaded))
  }

  /**
   * Everything after the draw: send the results, log the roll, store the
   * verification, announce, and only then work out the ledger line.
   */
  method Publish(req: Request, w: World, spots: int, info: Option<Reddit.PostInfo>, result: RandomOrg.SignedResult,
                 payload: string, vdb: Database.VerificationDatabase, linkDb: LinkStore.LinkDatabase, roll: RollLog.RollLogger)
    returns (outcome: CallOutcome, appended: Option<string>)
    requires roll.Valid()
    modifies vdb, linkDb, roll
    ensures roll.Valid()
    ensures linkDb.links == old(linkDb.links)
    ensures outcome.Completed? <==> w.responseId.Some? && info.Some?
    ensures Published(req, w, spots, info, result, payload, linkDb.links,
                      old(vdb.rows), vdb.rows, old(linkDb.messages), linkDb.messages,
                      old(RollState(roll.currentDate, roll.currentMessageId, roll.rollCounts)),
                      RollState(roll.currentDate, roll.currentMessageId, roll.rollCounts), outcome, appended)
  {
    appended := None;
    var numbers := result.random.data;
    var content := BuildWinningContent(info, numbers);
    if w.responseId.None? {
      return Failed(SendRaised), None;
    }
    if w.rollChannelFound {
      LogToHistory(roll, w.today, numbers, w.rollEmbedId, w.rollEdit);
    }
    vdb.StoreVerification(w.responseId.value, payload,
                          result.signature, numbers, info, Some(result.random.completionTime),
                          Some(spots), Some(req.callerName), w.storeFails);
    var announcement := SendGeneralChatAnnouncement(linkDb, numbers, info, w.generalChannel, w.announcementId,
                                                    w.guildMatch);
    if info.None? {
      return Failed(NoPostRecord), None;
    }
    appended := LedgerEntry(IsAdmin(req), info, w.ledger, w.reloaded);
    outcome := Completed(numbers, content, announcement);
  }

  /** The draw and what follows it, for a request that passed every check. */
  method RunAdmitted(req: Request, w: World, spots: int, info: Option<Reddit.PostInfo>,
                     rng: RandomOrg.RandomOrgManager, vdb: Database.VerificationDatabase,
                     linkDb: LinkStore.LinkDatabase, roll: RollLog.RollLogger)
    returns (outcome: CallOutcome, appended: Option<string>)
    requires rng.Valid() && roll.Valid()
    modifies rng, vdb, linkDb, roll
    ensures rng.Valid() && roll.Valid()
    ensures linkDb.links == old(linkDb.links)
    ensures rng.apiKeys == old(rng.apiKeys)
    ensures rng.currentKeyIndex ==
      RandomOrg.IndexAfter(old(rng.currentKeyIndex), RandomOrg.AttemptsUsed(w.attempts), |rng.apiKeys|)
    ensures RandomOrg.Counters(rng.requestCounts, rng.lastReset) ==
      CountersAfterDraw(rng.apiKeys, old(rng.currentKeyIndex),
                        RandomOrg.Counters(old(rng.requestCounts), old(rng.lastReset)), w.attempts, w.now)
    ensures outcome.StillDrawing? <==> RandomOrg.OutcomeOf(w.attempts).StillRetrying?
    ensures RandomOrg.OutcomeOf(w.attempts).StillRetrying? ==>
      appended.None? && unchanged(vdb) && unchanged(linkDb) && unchanged(roll)
    ensures outcome.Completed? <==> RandomOrg.OutcomeOf(w.attempts).Drawn? && w.responseId.Some? && info.Some?
    ensures var draw := RandomOrg.OutcomeOf(w.attempts);
      draw.Drawn? ==>
      Published(req, w, spots, info, draw.result, RandomOrg.FormatVerificationData(draw.result.random), linkDb.links,
                old(vdb.rows), vdb.rows, old(linkDb.messages), linkDb.messages,
                old(RollState(roll.currentDate, roll.currentMessageId, roll.rollCounts)),
                RollState(roll.currentDate, roll.currentMessageId, roll.rollCounts), outcome, appended)
  {
    ghost var rows0, messages0 := vdb.rows, linkDb.messages;
    ghost var roll0 := RollState(roll.currentDate, roll.currentMessageId, roll.rollCounts);
    var draw, payload := Draw(rng, req.winners, spots, w.attempts, w.now);
    if draw.StillRetrying? {
      return StillDrawing, None;
    }
    assert vdb.rows == rows0 && linkDb.messages == messages0 &&
      RollState(roll.currentDate, roll.currentMessageId, roll.rollCounts) == roll0;
    outcome, appended := Publish(req, w, spots, info, draw.result, payload, vdb, linkDb, roll);
  }

  /**
   * process_call_command: admit, draw, publish, and append to the ledger only
   * when everything before it went through.
   */
  method ProcessCallCommand(req: Request, w: World, rng: RandomOrg.RandomOrgManager,
                            vdb: Database.VerificationDatabase, linkDb: LinkStore.LinkDatabase,
                            roll: RollLog.RollLogger)
    returns (outcome: CallOutcome, appended: Option<string>)
    requires rng.Valid() && roll.Valid()
    modifies rng, vdb, linkDb, roll
    ensures rng.Valid() && roll.Valid()
    ensures linkDb.links == old(linkDb.links)
    ensures Admit(req, w.fetch, w.ledger).Rejected? ==>
      outcome == NotCalled(Admit(req, w.fetch, w.ledger).reason) && appended.None? &&
      unchanged(rng) && unchanged(vdb) && unchanged(linkDb) && unchanged(roll)
    ensures outcome.NotCalled? ==> Admit(req, w.fetch, w.ledger).Rejected?
    ensures outcome.StillDrawing? <==>
      Admit(req, w.fetch, w.ledger).Admitted? && RandomOrg.OutcomeOf(w.attempts).StillRetrying?
    ensures outcome.Completed? <==>
      var a := Admit(req, w.fetch, w.ledger);
      a.Admitted? && RandomOrg.OutcomeOf(w.attempts).Drawn? && w.responseId.Some? && a.info.Some?
    ensures !outcome.Completed? ==> appended.None?
    ensures Admit(req, w.fetch, w.ledger).Admitted? ==>
      rng.apiKeys == old(rng.apiKeys) &&
      rng.currentKeyIndex ==
        RandomOrg.IndexAfter(old(rng.currentKeyIndex), RandomOrg.AttemptsUsed(w.attempts), |rng.apiKeys|) &&
      RandomOrg.Counters(rng.requestCounts, rng.lastReset) ==
        CountersAfterDraw(rng.apiKeys, old(rng.currentKeyIndex),
                          RandomOrg.Counters(old(rng.requestCounts), old(rng.lastReset)), w.attempts, w.now)
    ensures Admit(req, w.fetch, w.ledger).Admitted? && RandomOrg.OutcomeOf(w.attempts).StillRetrying? ==>
      unchanged(vdb) && unchanged(linkDb) && unchanged(roll)
    ensures var a := Admit(req, w.fetch, w.ledger);
      var draw := RandomOrg.OutcomeOf(w.attempts);
      a.Admitted? && draw.Drawn? ==>
      Published(req, w, a.spots, a.info, draw.result, RandomOrg.FormatVerificationData(draw.result.random), linkDb.links,
                old(vdb.rows), vdb.rows, old(linkDb.messages), linkDb.messages,
                old(RollState(roll.currentDate, roll.currentMessageId, roll.rollCounts)),
                RollState(roll.currentDate, roll.currentMessageId, roll.rollCounts), outcome, appended)
  {
    var admission := Admit(req, w.fetch, w.ledger);
    if admission.Rejected? {
      return NotCalled(admission.reason), None;
    }
    outcome, appended := RunAdmitted(req, w, admission.spots, admission.info, rng, vdb, linkDb, roll);
  }
}
