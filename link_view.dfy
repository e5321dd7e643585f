/**
 * The rules behind the link button of Psyduck/link_view.py: who may press it,
 * what the selector offers, which Discord ids the modal accepts, and the
 * winner announcement it rewrites once a link is made.
 *
 * Discord's views, modals and responses are not modelled; what a handler
 * decides to show is returned as a value. Matching a Reddit name against the
 * guild's members is done by code that is not part of this model, so it is
 * passed in as a function from a Reddit name to the mention of the member it
 * matched, if any.
 */
module LinkView {
  import opened Text
  import opened LinkStore

  /** config.ADMIN_USER_ID: the only user the button answers. */
  const AdminUserId: int := 975054002431606844

  /** Discord's limit on a select option's label and description. */
  const OptionTextLimit: nat := 100

  // ---------------------------------------------------------------------
  // LinkButton.link_button

  /** What a press of the link button leads to. */
  datatype ClickAction =
    | Deferred                            // not the admin: acknowledged and ignored
    | NoMapping                           // no winners stored for the message
    | NoWinners                           // stored, but the list is empty
    | OpenModal(username: string)         // one winner: straight to the modal
    | ShowSelector(usernames: seq<string>) // several: the dropdown first

  /** The decision link_button makes, from the presser and the stored mapping of the message. */
  function Click(userId: int, mapping: Option<MessageMapping>): (a: ClickAction)
    ensures a.Deferred? <==> userId != AdminUserId
    ensures a.NoMapping? <==> userId == AdminUserId && mapping.None?
    ensures a.NoWinners? <==> userId == AdminUserId && mapping.Some? && mapping.value.redditUsernames == []
    ensures a.OpenModal? <==> userId == AdminUserId && mapping.Some? && |mapping.value.redditUsernames| == 1
    ensures a.OpenModal? ==> a.username == mapping.value.redditUsernames[0]
    ensures a.ShowSelector? <==> userId == AdminUserId && mapping.Some? && |mapping.value.redditUsernames| >= 2
    ensures a.ShowSelector? ==> a.usernames == mapping.value.redditUsernames
  {
    if userId != AdminUserId then Deferred
    else if mapping.None? then NoMapping
    else
      var names := mapping.value.redditUsernames;
      if names == [] then NoWinners
      else if |names| == 1 then OpenModal(names[0])
      else ShowSelector(names)
  }

  /** link_button against the link store: it reads the message's mapping and changes nothing. */
  method LinkButtonClick(db: LinkDatabase, userId: int, messageId: int) returns (a: ClickAction)
    ensures a.Deferred? <==> userId != AdminUserId
    ensures userId == AdminUserId && messageId !in db.messages ==> a == NoMapping
    ensures userId == AdminUserId && messageId in db.messages ==>
              a == Click(userId, Some(db.messages[messageId]))
  {
    if userId != AdminUserId {
      return Deferred;
    }
    var mapping := db.GetMessageMapping(messageId);
    a := Click(userId, mapping);
  }

  // ---------------------------------------------------------------------
  // WinnerSelectView.__init__

  /** Python's `s[:n]`. */
  function Cut(s: string, n: nat): (r: string)
    ensures |r| <= n && |r| <= |s| && r == s[..|r|]
    ensures |s| <= n ==> r == s
    ensures |s| >= n ==> |r| == n
  {
    if |s| <= n then s else s[..n]
  }

  /** A Discord id read from the store counts only when it is a non-empty string. */
  predicate Truthy(id: Option<string>) { id.Some? && id.value != [] }

  /** One entry of the selector; `linked` picks the link emoji over the question mark. */
  datatype SelectOption = SelectOption(caption: string, value: string, description: string, linked: bool)

  /** The option offered for one Reddit name, given the links table. */
  function OptionFor(links: map<string, Link>, username: string): (o: SelectOption)
    ensures o.value == username
    ensures |o.caption| <= OptionTextLimit && |o.description| <= OptionTextLimit
    ensures o.linked <==> Truthy(DiscordIdOf(links, username))
    ensures |username| + 2 <= OptionTextLimit ==> o.caption == "u/" + username
  {
    var id := DiscordIdOf(links, username);
    var description := if Truthy(id) then "Linked to <@" + id.value + ">" else "Not linked yet";
    SelectOption(Cut("u/" + username, OptionTextLimit), username, Cut(description, OptionTextLimit), Truthy(id))
  }

  /** The options of the selector: one per distinct winner, looked up one at a time. */
  method SelectorOptions(db: LinkDatabase, usernames: seq<string>) returns (options: seq<SelectOption>)
    ensures |options| == |Dedup(usernames)|
    ensures forall i :: 0 <= i < |options| ==> options[i] == OptionFor(db.links, Dedup(usernames)[i])
  {
    var unique := Dedup(usernames);
    options := [];
    var i := 0;
    while i < |unique|
      invariant 0 <= i <= |unique|
      invariant |options| == i
      invariant forall k :: 0 <= k < i ==> options[k] == OptionFor(db.links, unique[k])
    {
      var id := db.GetDiscordId(unique[i]);
      var description := if Truthy(id) then "Linked to <@" + id.value + ">" else "Not linked yet";
      options := options + [SelectOption(Cut("u/" + unique[i], OptionTextLimit), unique[i],
                                         Cut(description, OptionTextLimit), Truthy(id))];
      i := i + 1;
    }
  }

  /** Every winner has exactly one option, and the options come in the order the winners first appear. */
  lemma SelectorOffersEachWinnerOnce(links: map<string, Link>, usernames: seq<string>,
                                     options: seq<SelectOption>)
    requires |options| == |Dedup(usernames)|
    requires forall i :: 0 <= i < |options| ==> options[i] == OptionFor(links, Dedup(usernames)[i])
    ensures forall name :: name in usernames <==> exists i :: 0 <= i < |options| && options[i].value == name
    ensures forall i, j :: 0 <= i < j < |options| ==> options[i].value != options[j].value
    ensures forall i, j :: 0 <= i < j < |options| ==>
              FirstIndex(usernames, options[i].value) < FirstIndex(usernames, options[j].value)
  {
    var d := Dedup(usernames);
    DedupOrder(usernames);
    forall name | name in usernames
      ensures exists i :: 0 <= i < |options| && options[i].value == name
    {
      var i :| 0 <= i < |d| && d[i] == name;
      assert options[i].value == name;
    }
  }

  // ---------------------------------------------------------------------
  // LinkModal.on_submit and update_winner_message

  /** The mention update_winner_message gives one winner: the stored link first, the guild match second. */
  function MentionFor(links: map<string, Link>, guildMatch: string -> Option<string>, username: string): (m: Option<string>)
    ensures Truthy(DiscordIdOf(links, username)) ==> m == Some("<@" + DiscordIdOf(links, username).value + ">")
    ensures !Truthy(DiscordIdOf(links, username)) ==> m == guildMatch(username)
  {
    var id := DiscordIdOf(links, username);
    if Truthy(id) then Some("<@" + id.value + ">") else guildMatch(username)
  }

  /** The mentions of a list of winners, in their order; a winner with neither a link nor a match is skipped. */
  function Mentions(links: map<string, Link>, guildMatch: string -> Option<string>, usernames: seq<string>): (r: seq<string>)
    ensures |r| <= |usernames|
    decreases |usernames|
  {
    if usernames == [] then []
    else
      var n := |usernames| - 1;
      var earlier := Mentions(links, guildMatch, usernames[..n]);
      match MentionFor(links, guildMatch, usernames[n])
      case Some(m) => earlier + [m]
      case None => earlier
  }

  /** How many of the winners have a mention. */
  function CountMentioned(links: map<string, Link>, guildMatch: string -> Option<string>, usernames: seq<string>): nat
    decreases |usernames|
  {
    if usernames == [] then 0
    else
      CountMentioned(links, guildMatch, usernames[..|usernames| - 1]) +
      (if MentionFor(links, guildMatch, usernames[|usernames| - 1]).Some? then 1 else 0)
  }

  /**
   * One mention per winner that has one, and nothing else: the mention of the
   * i-th winner sits after the mentions of the winners before it.
   */
  lemma {:induction false} MentionsAt(links: map<string, Link>, guildMatch: string -> Option<string>, usernames: seq<string>)
    ensures |Mentions(links, guildMatch, usernames)| == CountMentioned(links, guildMatch, usernames)
    ensures forall i :: 0 <= i < |usernames| && MentionFor(links, guildMatch, usernames[i]).Some? ==>
      CountMentioned(links, guildMatch, usernames[..i]) < |Mentions(links, guildMatch, usernames)| &&
      Mentions(links, guildMatch, usernames)[CountMentioned(links, guildMatch, usernames[..i])] ==
        MentionFor(links, guildMatch, usernames[i]).value
    decreases |usernames|
  {
    if usernames != [] {
      var n := |usernames| - 1;
      var p := usernames[..n];
      MentionsAt(links, guildMatch, p);
      var earlier := Mentions(links, guildMatch, p);
      var r := Mentions(links, guildMatch, usernames);
      assert |earlier| <= |r| && r[..|earlier|] == earlier;
      forall i | 0 <= i < |usernames| && MentionFor(links, guildMatch, usernames[i]).Some?
        ensures CountMentioned(links, guildMatch, usernames[..i]) < |r| &&
          r[CountMentioned(links, guildMatch, usernames[..i])] == MentionFor(links, guildMatch, usernames[i]).value
      {
        if i < n {
          assert usernames[..i] == p[..i] && usernames[i] == p[i];
          assert r[CountMentioned(links, guildMatch, p[..i])] == earlier[CountMentioned(links, guildMatch, p[..i])];
        } else {
          assert usernames[..i] == p;
        }
      }
    }
  }

  /** "# WINNER" for a count of exactly one, "# WINNERS" for any other. */
  function Header(count: nat): string
  {
    if count == 1 then "# WINNER" else "# WINNERS"
  }

  /**
   * The content of a winner announcement: the header, then the mentions. The
   * general-chat announcement counts the drawn numbers, update_winner_message
   * the stored names.
   */
  function AnnouncementContent(count: nat, mentions: seq<string>): string
  {
    if mentions != [] then
      if count == 1 then Header(1) + "\n" + mentions[0]
      else Header(count) + "\n" + Join(mentions, "\n")
    else Header(count)
  }

  /** When a count of one comes with at most one mention, the content is the header and the mentions, one per line. */
  lemma AnnouncementLines(count: nat, mentions: seq<string>)
    requires count == 1 ==> |mentions| <= 1
    requires forall i :: 0 <= i < |mentions| ==> '\n' !in mentions[i]
    ensures Split(AnnouncementContent(count, mentions), '\n') == [Header(count)] + mentions
  {
    var parts := [Header(count)] + mentions;
    assert parts[1..] == mentions;
    assert AnnouncementContent(count, mentions) == Join(parts, "\n") by {
      if mentions != [] && count == 1 {
        assert mentions == [mentions[0]];
      }
    }
    forall k | 0 <= k < |parts| ensures '\n' !in parts[k] {
      if k > 0 {
        assert parts[k] == mentions[k - 1];
      }
    }
    SplitJoin(parts, '\n');
  }

  /** A single stored name gives at most one mention, so AnnouncementLines applies to every rebuilt content. */
  lemma {:induction false} MentionsAtMostOne(links: map<string, Link>, guildMatch: string -> Option<string>,
                                             usernames: seq<string>)
    requires |usernames| == 1
    ensures |Mentions(links, guildMatch, usernames)| <= 1
  {
    assert usernames[..0] == [];
  }

  /** When every winner is linked, there is one mention per winner, in winner order: the stored id's. */
  lemma {:induction false} LinkedWinnersMentioned(links: map<string, Link>, guildMatch: string -> Option<string>,
                                                  usernames: seq<string>)
    requires forall i :: 0 <= i < |usernames| ==> Truthy(DiscordIdOf(links, usernames[i]))
    ensures |Mentions(links, guildMatch, usernames)| == |usernames|
    ensures forall i :: 0 <= i < |usernames| ==>
              Some(Mentions(links, guildMatch, usernames)[i]) == MentionFor(links, guildMatch, usernames[i])
    decreases |usernames|
  {
    if usernames != [] {
      var n := |usernames| - 1;
      var p := usernames[..n];
      forall i | 0 <= i < |p| ensures Truthy(DiscordIdOf(links, p[i])) {
        assert p[i] == usernames[i];
      }
      LinkedWinnersMentioned(links, guildMatch, p);
    }
  }

  /** update_winner_message: no mapping, no edit; otherwise the content the message is edited to. */
  method UpdateWinnerMessage(db: LinkDatabase, messageId: int, guildMatch: string -> Option<string>)
    returns (edit: Option<string>)
    ensures messageId !in db.messages ==> edit.None?
    ensures messageId in db.messages ==>
              var names := db.messages[messageId].redditUsernames;
              edit == Some(AnnouncementContent(|names|, Mentions(db.links, guildMatch, names)))
  {
    var mapping := db.GetMessageMapping(messageId);
    if mapping.None? {
      return None;
    }
    var names := mapping.value.redditUsernames;
    var mentions := [];
    var i := 0;
    while i < |names|
      invariant 0 <= i <= |names|
      invariant mentions == Mentions(db.links, guildMatch, names[..i])
    {
      assert names[..i + 1][..i] == names[..i];
      var id := db.GetDiscordId(names[i]);
      if Truthy(id) {
        mentions := mentions + ["<@" + id.value + ">"];
      } else {
        var member := guildMatch(names[i]);
        if member.Some? {
          mentions := mentions + [member.value];
        }
      }
      i := i + 1;
    }
    assert names[..i] == names;
    edit := Some(AnnouncementContent(|names|, mentions));
  }

  /** How a submission of the modal ends. */
  datatype SubmitResult =
    | InvalidId                                  // not digits after stripping: nothing stored
    | Linked(discordUserId: string, edit: Option<string>) // stored; the announcement's new content, if any

  /**
   * on_submit: strip the entered id, accept it only if it is all digits, store
   * the link, then rewrite the announcement. `userFound` says whether
   * fetch_user found the id. When it did not, the warning has already answered
   * the interaction, so the success reply raises InteractionResponded. The
   * outer handler catches that, and the announcement is never rewritten,
   * although the link is stored.
   */
  method OnSubmit(db: LinkDatabase, redditUsername: string, messageId: int, entered: string,
                  submitterId: int, userFound: bool, guildMatch: string -> Option<string>)
    returns (result: SubmitResult)
    modifies db
    ensures !IsDigitString(Strip(entered)) ==> result == InvalidId && db.links == old(db.links)
    ensures IsDigitString(Strip(entered)) ==>
              result.Linked? && result.discordUserId == Strip(entered) &&
              db.links == old(db.links)[ToLower(redditUsername) := Link(Strip(entered), Some(IntToString(submitterId)))]
    ensures result.Linked? && userFound && messageId in db.messages ==>
              var names := db.messages[messageId].redditUsernames;
              result.edit == Some(AnnouncementContent(|names|, Mentions(db.links, guildMatch, names)))
    ensures result.Linked? && (!userFound || messageId !in db.messages) ==> result.edit.None?
    ensures db.messages == old(db.messages)
  {
    var id := Strip(entered);
    if !IsDigitString(id) {
      return InvalidId;
    }
    // add_link returns True or raises, so its failure reply never runs.
    var _ := db.AddLink(redditUsername, id, Some(IntToString(submitterId)));
    if !userFound {
      return Linked(id, None);
    }
    var edit := UpdateWinnerMessage(db, messageId, guildMatch);
    result := Linked(id, edit);
  }

  /** After a winner is linked, the rebuilt announcement mentions the new id for that winner, whatever the guild match says. */
  lemma SubmittedWinnerMentioned(links: map<string, Link>, guildMatch: string -> Option<string>,
                                 redditUsername: string, entered: string, linkedBy: Option<string>, winner: string)
    requires IsDigitString(Strip(entered))
    requires ToLower(winner) == ToLower(redditUsername)
    ensures MentionFor(links[ToLower(redditUsername) := Link(Strip(entered), linkedBy)], guildMatch, winner)
              == Some("<@" + Strip(entered) + ">")
  {
    AddThenFind(links, redditUsername, Strip(entered), linkedBy, winner);
  }

  /** A digits-only id never holds a newline, so a stored link keeps the rebuilt content one mention per line. */
  lemma DigitIdMentionOneLine(id: string)
    requires IsDigitString(id)
    ensures '\n' !in "<@" + id + ">"
  {
    var m := "<@" + id + ">";
    forall k | 0 <= k < |m| ensures m[k] != '\n' {
      if 2 <= k < 2 + |id| {
        assert m[k] == id[k - 2];
      }
    }
  }
}
