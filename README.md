# Psyduck raffle bot: a verified model of its core

Psyduck is a Discord bot that calls Reddit raffles. A `/call` request names a
Reddit post, an optional number of slots and a number of winners. The bot
checks the request and fetches the post. It draws signed random numbers from
Random.org and publishes the winners. It stores verification data, announces
the winners in the general channel and records the post in a ledger of called
raffles, so that the same raffle is not called twice.

This project models the parts of the bot that decide, parse, count or store:

- **`CommandHandler`** (`command_handler.dfy`) covers the `/call` pipeline:
  - the URL check
  - the duplicate check against the ledger, with the admin bypass
  - the slot count taken from the post title
  - parameter validation
  - the winners-versus-assigned-spots check
  - the draw, the results message, the roll log, the verification row and the announcement
  - the single ledger line appended at the very end

  Everything the pipeline learns from outside arrives in a `World` value. That
  value holds the fetched post, the ledger as loaded and as re-read, the
  Random.org attempts, the ids Discord gives the sent messages, and a guild
  member matcher.
- **`Utils`** (`utils.dfy`) covers `validate_parameters`, `parse_command`,
  `parse_spots_from_title`, `format_winning_message` and the text of the
  verification file. The regular expressions are hand-coded over ASCII
  character classes.
- **`Reddit`** (`reddit.dfy`) covers:
  - the spot-assignment grammar of a post body, where the last write wins
  - post-id extraction
  - the three host rewrites applied before a fetch
  - the choice of the post image
  - the record `get_post_info` returns
- **`RandomOrg`** (`random_org.dfy`) models the key manager as a class. It
  covers:
  - round-robin key rotation
  - the daily counter reset at 09:00 UTC
  - the retry loop, consuming a sequence of attempt outcomes
  - the JSON-RPC request of each attempt
  - the verification payload written with `json.dumps(..., indent=2)`
- **`Database`** (`database.dfy`) is the verification store, held as a map
  from message id to row. The JSON numbers column comes with its decoder.
- **`LinkStore`** (`link_database.dfy`) contains:
  - the retry decorator for database calls
  - the link table, from lower-cased Reddit name to Discord id
  - the table from announcement message to winners
- **`RollLog`** (`roll_logger.dfy`) is the daily roll counter. It keeps an
  insertion-ordered count table, sorts it stably by count and renders the
  embed description. It also parses a description back on restart.
- **`LinkView`** (`link_view.dfy`) holds the rules of the link button, the
  winner selector, the id modal and the rebuilt announcement.
- **`Text`** (`text.dfy`) holds the string helpers the others share: ASCII
  versions of Python's `strip`, `split`, `isdigit`, `lower` and `int`, as well
  as `join`, `replace`, `str` of an integer and order-preserving dedup.

Time is integer seconds (UTC). The roll log's date is built from a given month, day and year.
Discord, Reddit, HTTP and SQLite calls become parameters or plain maps.

Notes on the code that shape the model:

- **Slot-count minimum.** `validate_parameters` (Psyduck/utils.py:225-241)
  accepts a slot count of 1 with one winner, and so does
  `Utils.ValidateParameters`.
- **Announcement header versus rebuilt header.** The general-chat
  announcement picks "# WINNER" or "# WINNERS" by the number of drawn numbers
  (Psyduck/command_handler.py:426). The rebuild after a manual link picks it by
  the number of stored names (Psyduck/link_view.py:227), and only known
  winners are stored. The two can therefore differ;
  `CommandHandler.RebuildHeaderCanDiffer` exhibits a case.
- **Unreachable admin notice.** The admin notice about an empty assignment
  map (Psyduck/command_handler.py:239-250) can never run, because the branch
  before it already catches an empty map. It only informs the admin, so it is
  not modelled.
- **No Reddit manager.** Without a configured Reddit manager, the pipeline
  draws and publishes, then raises when it reads the post url for the ledger
  (Psyduck/command_handler.py:313). The catch-all handles it and nothing is
  marked as called; the model's outcome is `Failed(NoPostRecord)`.

## Model

| member | source | states |
|---|---|---|
| CommandHandler.UrlCheckIgnoresCase | Psyduck/command_handler.py:107-113 | The URL check accepts a url exactly when it accepts its lower-cased form (re.IGNORECASE). |
| CommandHandler.CanonicalUrlPasses | Psyduck/command_handler.py:108 | Every canonical post url that get_post_info builds ("https://reddit.com" + permalink) passes the URL check. |
| CommandHandler.CheckCounts | Psyduck/command_handler.py:166-192 | Admitted exactly when the slot count is known, validate_parameters passes, and the winners do not exceed a non-empty assignment map. Each failure has its own rejection: missing slots, the validation message, or too few assigned spots. |
| CommandHandler.Admit | Psyduck/command_handler.py:107-192 | The URL check is the first decision: a bad url is rejected before anything else. An already-called rejection names a url in the ledger, and the caller is not the admin. An admission draws with the given slot count, or else the one parsed from the title, and carries the fetched record. |
| CommandHandler.CalledPostRefused | Psyduck/command_handler.py:137-146 | A non-admin request for a post whose canonical url is in the ledger is refused before the draw. |
| CommandHandler.AdminBypassesLedger | Psyduck/command_handler.py:138-146 | For the admin, the ledger has no effect: admission is the same as with an empty ledger. |
| CommandHandler.SpotsTakenFromTitle | Psyduck/command_handler.py:148-158 | When no slot count is given, a title "... N Spots ..." supplies N. A parse of 0 is refused as unparsed. |
| CommandHandler.LedgerEntry | Psyduck/command_handler.py:312-331 | The line appended is the post's canonical url and is not in the re-read ledger. No line is appended for an admin re-roll of a url present at load time, or for a url already present on reload. |
| CommandHandler.LedgerKeepsNoRepeats | Psyduck/command_handler.py:312-331 | The ledger keeps its old lines as a prefix, grows by at most one line and never gains a repeated url. |
| CommandHandler.NameOf | Psyduck/command_handler.py:219 | The name of a number is the assigned name when the spot is assigned, and "Unknown" otherwise. |
| CommandHandler.WinnerLinesAt | Psyduck/command_handler.py:214-229 | The i-th winner line is the line of the i-th drawn number. |
| CommandHandler.NumberLinesAt | Psyduck/command_handler.py:252-253 | The i-th line of the bare-numbers list is the i-th drawn number in decimal. |
| CommandHandler.WinningContent | Psyduck/command_handler.py:231-257 | The content is always under 256 characters. Below the limit it is the full content; otherwise it is the fixed too-long notice. |
| CommandHandler.BuildWinningContent | Psyduck/command_handler.py:214-257 | The loops that build the winner lines produce exactly WinningContent. |
| CommandHandler.FullContentLines | Psyduck/command_handler.py:231-232 | The full content splits back into the header ("Winner"/"Winning number" for one number, plural otherwise), a blank line and one line per drawn number, in draw order. |
| CommandHandler.NumbersReadBack | Psyduck/command_handler.py:252-253 | Without assigned spots, every line after the header parses back to its drawn number. |
| CommandHandler.WinnerLineShowsName | Psyduck/command_handler.py:219-229 | A winner line reads "N - Unknown" exactly when the number has no assigned name other than "Unknown". |
| CommandHandler.KnownWinners | Psyduck/command_handler.py:391-395 | The stored names hold only real names from the assignment map, at most one per drawn number. |
| CommandHandler.KnownWinnersAt | Psyduck/command_handler.py:391-395 | One name is stored per drawn number with a real name, in draw order: the name of the i-th drawn number follows the names of the named numbers before it. |
| CommandHandler.AllWinnersKnown | Psyduck/command_handler.py:391-395 | When every drawn number has a real name, one name is stored per number, in draw order. |
| CommandHandler.AnnouncementMentions | Psyduck/command_handler.py:391-420 | The loop yields the known winners in draw order, and their mentions: the stored link first, the guild match second, a winner with neither skipped. |
| CommandHandler.SendGeneralChatAnnouncement | Psyduck/command_handler.py:356-490 | An announcement is sent exactly when the channel exists, the post assigns spots and sending succeeds. Its content is the header and mentions, and the known names are stored under the announcement's id. Otherwise the message table is unchanged, and the link table never changes. |
| CommandHandler.RebuildMatchesAnnouncement | Psyduck/command_handler.py:425-434 | When every drawn number has a real name, the rebuilt content after a link (link_view.py:213-235) equals the content sent. |
| CommandHandler.RebuildHeaderCanDiffer | Psyduck/command_handler.py:425-434 | A witness that the announcement and its rebuild disagree: numbers 5 and 7, only 5 assigned. The announcement says WINNERS, the rebuild WINNER. |
| CommandHandler.Draw | Psyduck/command_handler.py:197-208 | The draw is the first successful Random.org attempt. Once it is drawn, the payload is format_verification_data of its random part. The keys stay, the rotation index advances once per attempt made, and the counters are those the attempts made leave, after the reset check of get_total_requests on a draw. |
| CommandHandler.LogToHistory | Psyduck/command_handler.py:277-285 | The roll logger is on today's date. Its counts are the day's counts, emptied on a new date, with the roll counted, and its message id follows log_roll's new-day and edit rules. |
| CommandHandler.Publish | Psyduck/command_handler.py:195-331 | Completed exactly when the results message was sent and a post record exists; a failed verification store is caught inside the store and does not stop the call. A failed send changes nothing. Otherwise the roll is logged exactly when the roll-log channel exists, the row is upserted under the response id unless the store fails, and the announcement goes out as SendGeneralChatAnnouncement states. On completion the content is WinningContent and the ledger line is LedgerEntry; a failure appends nothing. |
| CommandHandler.RunAdmitted | Psyduck/command_handler.py:195-342 | The call keeps drawing exactly when no attempt succeeds, and then changes no store. It completes exactly when a draw succeeded, the results message was sent and a post record exists. The key manager ends with the rotation and counters of the attempts made. After a draw, the roll log, rows, announcement, outcome and ledger line are as Publish states. |
| CommandHandler.ProcessCallCommand | Psyduck/command_handler.py:69-342 | A rejected request changes no object and appends nothing, and only rejected requests end as NotCalled. A call completes exactly when it is admitted, drawn, sent and has a post record, and only a completed call appends a ledger line. An admitted request leaves the key manager as its attempts leave it; a pending draw changes no store; a successful draw publishes as Publish states. |
| Utils.FirstFailure | Psyduck/utils.py:214-243 | Each failure is reported exactly when it is the first failing check, in the program's order: missing, count < 1, max < 1, count > max, max > 1000000, count > 1000. |
| Utils.ValidateParameters | Psyduck/utils.py:214-243 | Valid exactly when both are present and 1 <= count <= max <= 1000000 and count <= 1000. There is an error message exactly when the request is invalid, and it is the first failing check's. |
| Utils.ValidateBoundaries | Psyduck/utils.py:234-241 | Drawing all n slots passes. Asking for n+1 of n gives the exact "Cannot pick ..." message. |
| Utils.ParseSpotsFromTitle | Psyduck/utils.py:19-44 | None exactly when the pattern matches nowhere. Otherwise the value is that of the leftmost match. |
| Utils.TitleWithSpots | Psyduck/utils.py:24-26 | A title in which no match starts before "N Spots" or "N spots" parses to N. |
| Utils.DigitFreePrefix | Psyduck/utils.py:35-44 | No match starts inside text without digits, so a title with no digit before "N Spots" parses to N. |
| Utils.CountMatches | Psyduck/utils.py:35-44 | The pattern matches at the start of "N Spots" and captures N, whatever surrounds it. |
| Utils.NoMatchWithoutDigit | Psyduck/utils.py:35-44 | No match starts at a character that is not a digit. |
| Utils.ParseCommand | Psyduck/utils.py:170-211 | Without "<@id>" or "<@!id>" in the message, the result is (None, None). The two values are present together, and a count other than 1 never exceeds the max. |
| Utils.DigitTokens | Psyduck/utils.py:193-196 | The filter keeps at most as many tokens as it is given. |
| Utils.DigitTokensAt | Psyduck/utils.py:193-196 | The filter keeps exactly the all-digit parts, as integers and in order: one value per digit part, the i-th digit part's value after those of the digit parts before it. |
| Utils.CountAndMax | Psyduck/utils.py:198-211 | One token n gives (1, n). Two tokens a, b give (a, b) when a <= b and (None, None) otherwise. Any other number of tokens gives (None, None). |
| Utils.ParseCommandAfterMention | Psyduck/utils.py:182-211 | After the bot's mention, only the digit tokens of the stripped text that follows are read. |
| Utils.ParseCommandSingle | Psyduck/utils.py:198-202 | "<@bot> n" asks for one winner out of n. |
| Utils.ParseCommandPair | Psyduck/utils.py:203-209 | "<@bot> a b" asks for a winners out of b exactly when a <= b, and gives (None, None) otherwise. |
| Utils.ParseCommandOtherCounts | Psyduck/utils.py:198-211 | After the bot's mention, any number of digit words other than one or two gives (None, None). |
| Utils.FormatWinningMessage | Psyduck/utils.py:153-167 | The one-number branch gives the same text as the general branch: "# " and the numbers joined with ", ". |
| Utils.WinningMessageReadBack | Psyduck/utils.py:153-167 | The header starts with "# ". Splitting the rest on "," and parsing each piece gives back the winning numbers in order. |
| Utils.FillLayout | Psyduck/utils.py:246-315 | In the filled template, the numbers line, the payload and the signature each sit verbatim at a fixed offset. |
| Utils.FillInjective | Psyduck/utils.py:246-315 | Two filled templates with the same numbers and payload length are equal only when payload and signature are equal. |
| Utils.VerificationFileLayout | Psyduck/utils.py:258-292 | The verification file contains the numbers joined with ", ", the payload and the signature verbatim, each at its offset. |
| Utils.VerificationFileInjective | Psyduck/utils.py:258-292 | For payloads without the rule character '═', a verification file determines its payload and signature. |
| Utils.FillPayloadLength | Psyduck/utils.py:258-292 | When the heading after the payload holds a character neither payload holds, equal filled templates have payloads of equal length. |
| Utils.PayloadFileInjective | Psyduck/utils.py:258-292 | A verification file whose payload format_verification_data wrote determines that payload and the signature. |
| Reddit.UserAtComplete | Psyduck/reddit_manager.py:197 | "u/name", "/u/name" and "U/name" capture the whole name, whatever non-name text follows. |
| Reddit.UserAtSound | Psyduck/reddit_manager.py:197 | Every accepted user part is "[/]u/" + a non-empty name + text that does not continue the name. |
| Reddit.ParseSpotLineComplete | Psyduck/reddit_manager.py:197-205 | Every well-formed spot line is read as its number and name, whatever follows the name. |
| Reddit.ParseSpotLineSound | Psyduck/reddit_manager.py:197-205 | Every line the pattern accepts is a well-formed spot line that carries the parsed number and name. |
| Reddit.PaidSuffixIgnored | Psyduck/reddit_manager.py:197 | "N u/name" followed by a PAID marker, or by any text that cannot continue the name, assigns spot N to name. |
| Reddit.AssignedIffNamed | Psyduck/reddit_manager.py:199-205 | A spot is in the table exactly when some accepted line names it. |
| Reddit.AssignLastWins | Psyduck/reddit_manager.py:205 | An assigned spot holds the name of a line that names it, and no later line names that spot (last write wins). |
| Reddit.ParseSpotAssignments | Psyduck/reddit_manager.py:179-208 | The loop over the lines builds exactly the table of the body's entries. |
| Reddit.SearchPostId | Psyduck/reddit_manager.py:63-66 | re.search gives None exactly when the pattern matches at no index. Otherwise it gives the group at the leftmost matching index, with no match before it. |
| Reddit.ExtractPostId | Psyduck/reddit_manager.py:47-68 | The comments pattern wins wherever it matches. The redd.it pattern is tried only when it does not, and None results exactly when neither matches. |
| Reddit.CommentsIdOf | Psyduck/reddit_manager.py:59 | The comments pattern captures the id of "reddit.com/r/<sub>/comments/<id>" where that text starts. |
| Reddit.ExtractFromCommentsLink | Psyduck/reddit_manager.py:58-66 | A link "<host>reddit.com/r/<sub>/comments/<id>[...]" yields <id>. |
| Reddit.FirstCommentsMatch | Psyduck/reddit_manager.py:63-66 | When the comments pattern first matches at an index, its group is the post id. |
| Reddit.NormaliseMobile | Psyduck/reddit_manager.py:87-89 | An m.reddit.com link becomes the same link on reddit.com. |
| Reddit.NormaliseImage | Psyduck/reddit_manager.py:87-89 | An i.reddit.com link becomes the same link on reddit.com. |
| Reddit.NormaliseWww | Psyduck/reddit_manager.py:87-89 | A www.reddit.com link becomes the same link on reddit.com. |
| Reddit.NormaliseCanonical | Psyduck/reddit_manager.py:87-89 | A link already on reddit.com is left as it is. |
| Reddit.NormaliseOneDot | Psyduck/reddit_manager.py:87-89 | A url with at most one dot holds none of the three hosts and is left as it is. |
| Reddit.Lookup | Psyduck/reddit_manager.py:115 | dict.get on the media metadata returns an entry stored under the key, and None only when no entry has it. |
| Reddit.SelectImage | Psyduck/reddit_manager.py:105-147 | A gallery takes the gallery rule; any other post takes the direct-or-preview rule. |
| Reddit.GalleryIgnoresPostImages | Psyduck/reddit_manager.py:134-135 | A gallery's image never depends on the post url or its previews. |
| Reddit.GalleryFirstItemWins | Psyduck/reddit_manager.py:110-121 | A gallery whose first item is an image with a "u" url shows that url, with &amp; decoded. |
| Reddit.GalleryFallsBackToMetadata | Psyduck/reddit_manager.py:124-132 | When the first gallery item gives nothing, the first metadata entry is used. |
| Reddit.DirectImageBeforePreview | Psyduck/reddit_manager.py:137-140 | A .jpg/.jpeg/.png/.gif url, in any letter case, is used as it is, before any preview. |
| Reddit.PreviewWhenNotDirect | Psyduck/reddit_manager.py:142-147 | Without a direct image url, the first preview image is used, with &amp; decoded. |
| Reddit.DecodeAmpPlain | Psyduck/reddit_manager.py:146 | Decoding leaves a url without "&" unchanged. |
| Reddit.CanonicalUrl | Psyduck/reddit_manager.py:159 | The canonical url is "https://reddit.com" followed by the permalink, and the permalink can be cut back out. |
| Reddit.GetPostInfo | Psyduck/reddit_manager.py:153-163 | The record carries the canonical url, the author url, the title, author and subreddit, the selected image and the parsed spot table. |
| RandomOrg.ResetTime | Psyduck/random_org.py:36 | The reset instant is 09:00:00 UTC on the same day as now. |
| RandomOrg.ZeroCounts | Psyduck/random_org.py:28 | Every configured key has a counter, and every counter is 0. |
| RandomOrg.AfterCheck | Psyduck/random_org.py:31-43 | When the reset is due, the counters are zeroed and the last reset becomes now. Otherwise nothing changes. |
| RandomOrg.ResetOncePerDay | Psyduck/random_org.py:38-42 | After a check at or past the reset hour, a later check on the same day changes nothing. |
| RandomOrg.NoResetBeforeHour | Psyduck/random_org.py:39 | Before 09:00 UTC the counters are never zeroed. |
| RandomOrg.ResetOnNewDay | Psyduck/random_org.py:39-42 | A check at or past the reset hour on a day after the last reset zeroes the counters. |
| RandomOrg.SameDayReset | Psyduck/random_org.py:36 | Two instants on the same day have the same reset instant. |
| RandomOrg.Bump | Psyduck/random_org.py:110 | Exactly the used key's counter rises by one (starting from 0 if absent); all others are unchanged. |
| RandomOrg.TotalBump | Psyduck/random_org.py:110 | A successful request raises the total that get_total_requests sums (line 63) by exactly one. |
| RandomOrg.TotalAfterReset | Psyduck/random_org.py:39-42 | Right after a reset the total is zero. |
| RandomOrg.RequestFor | Psyduck/random_org.py:85-96 | Each request is a JSON-RPC 2.0 request for generateSignedIntegers. It asks for n = count, min = 1, max = max_value and replacement = False, with the attempt's id. |
| RandomOrg.FirstSuccess | Psyduck/random_org.py:108-115 | The index of the first attempt whose reply has a result, with no success before it. |
| RandomOrg.AttemptsUsed | Psyduck/random_org.py:81-128 | The loop makes every attempt up to and including the first success. |
| RandomOrg.OutcomeOf | Psyduck/random_org.py:108-115 | The draw is still pending exactly when no attempt succeeds. Otherwise it is the result of the first success. |
| RandomOrg.IndexAfterMod | Psyduck/random_org.py:51 | After j attempts from start, the rotation index is (start + j) mod the number of keys. |
| RandomOrg.RotationCoversKeys | Psyduck/random_org.py:45-53 | Within any run of as many attempts as there are keys, every key is used. |
| RandomOrg.RotationPeriodic | Psyduck/random_org.py:45-53 | The key sequence repeats with the number of keys as its period. |
| RandomOrg.SentRequestsAt | Psyduck/random_org.py:81-96 | The j-th request goes out with the j-th key of the rotation and the same count and range. |
| RandomOrg.Step | Psyduck/random_org.py:83-110 | One attempt runs the reset check, then raises the used key's counter only when it succeeded. |
| RandomOrg.FailuresKeepCounts | Psyduck/random_org.py:116-128 | Failed attempts with no reset due change no counter. |
| RandomOrg.SuccessRaisesTotal | Psyduck/random_org.py:108-110 | A successful attempt with no reset due raises the total by exactly one. |
| RandomOrg.RandomOrgManager.constructor | Psyduck/random_org.py:19-29 | Starts at key index 0, with a zero counter per key and the last reset at now. |
| RandomOrg.RandomOrgManager.CheckResetNeeded | Psyduck/random_org.py:31-43 | The counters and last reset become AfterCheck of the old ones; the keys and index are unchanged. |
| RandomOrg.RandomOrgManager.NextApiKey | Psyduck/random_org.py:45-53 | Returns the key at the current index, and the index moves to (index + 1) mod the number of keys, after the reset check. |
| RandomOrg.RandomOrgManager.GetTotalRequests | Psyduck/random_org.py:55-64 | After the reset check, returns the sum of the counters and the limit 4000. |
| RandomOrg.RandomOrgManager.TryOnce | Psyduck/random_org.py:82-117 | One pass sends RequestFor with the current key and advances the index. It counts the request only when the reply has a result. |
| RandomOrg.RandomOrgManager.GenerateRandomNumbers | Psyduck/random_org.py:66-128 | Returns OutcomeOf(attempts) after AttemptsUsed attempts and waits 300 s after each failure. It sends the rotation's requests, advances the index once per attempt, and ends with the replayed counters. |
| RandomOrg.VerificationFields | Psyduck/random_org.py:140-151 | The payload fields, in order: method, hashedApiKey, n, min, max, replacement, base, data, completionTime, serialNumber. The method is fixed to generateSignedIntegers and every other field comes from the reply. |
| RandomOrg.EscapeIsStringBody | Psyduck/random_org.py:140 | json.dumps always writes a well-formed JSON string body (section 7 of RFC 8259). |
| RandomOrg.EscapePlain | Psyduck/random_org.py:140 | Text of printable ASCII other than quote and backslash is written unchanged. |
| RandomOrg.EscapeAscii | Psyduck/random_org.py:139-150 | With ensure_ascii, every escaped string is ASCII: non-ASCII characters become \\u escapes. |
| RandomOrg.PayloadAscii | Psyduck/random_org.py:139-150 | The whole payload is ASCII, whatever text the reply holds. |
| RandomOrg.PayloadFraming | Psyduck/random_org.py:140-151 | The payload opens with "{", then the fixed method member on its own line, and closes with "}" on its last line. |
| Database.VerificationDatabase.constructor | Psyduck/database.py:15-23 | Opening the store keeps the rows already in the database file, unchanged. |
| Database.NumbersRoundTrip | Psyduck/database.py:99 | json.loads (line 136) of json.dumps of the numbers gives the numbers back. |
| Database.JsonCopy | Psyduck/database.py:100 | Through json.loads (line 137), the Reddit record reads back with the same fields. Each spot number becomes its decimal text key, with the same name, and no other keys appear. |
| Database.RowFor | Psyduck/database.py:95-100 | A falsy reddit_info is stored as NULL, and the numbers are stored as their JSON text. |
| Database.Lookup | Psyduck/database.py:132-142 | An unknown message id yields None. |
| Database.StoreThenGet | Psyduck/database.py:95-141 | Reading a stored row gives back every argument. The Reddit record comes back as json.loads returns it, and a missing one as None. |
| Database.VerificationDatabase.StoreVerification | Psyduck/database.py:75-107 | INSERT OR REPLACE: the row under the message id is replaced whole. A database error is caught inside the method and leaves the table as it was. Every other id reads as before. |
| Database.VerificationDatabase.GetVerification | Psyduck/database.py:109-146 | Returns Lookup of the table. |
| Database.VerificationDatabase.CleanupAllRecords | Psyduck/database.py:148-168 | Returns the number of rows before deletion and leaves the table empty. |
| LinkStore.Outcome | Psyduck/link_database.py:20-37 | The wrapper gives up exactly when all permitted attempts hit OperationalError, and then raises the last one. A returned value is one of the attempts' successes. |
| LinkStore.CallsMade | Psyduck/link_database.py:22-34 | At most max_retries calls are made, stopping at the first call that does not raise OperationalError. |
| LinkStore.SleepsTaken | Psyduck/link_database.py:27-29 | There are never more sleeps than calls, and no sleep follows the last permitted attempt. |
| LinkStore.Backoff | Psyduck/link_database.py:29 | The wait after failed attempt i is delay * (i + 1). |
| LinkStore.Retry | Psyduck/link_database.py:20-37 | The loop yields Outcome, CallsMade calls, and sleeps of Backoff over SleepsTaken. |
| LinkStore.RetryReturnsFirstSuccess | Psyduck/link_database.py:22-24 | A success after k OperationalErrors is returned after k + 1 calls and k sleeps. |
| LinkStore.RetryReraisesAtOnce | Psyduck/link_database.py:32-34 | Any other error is raised at once: no further call and no sleep after it. |
| LinkStore.RetryGivesUp | Psyduck/link_database.py:26-35 | When every permitted attempt fails, all are made, with one sleep fewer, and the last error is raised. |
| LinkStore.DiscordIdOf | Psyduck/link_database.py:141-154 | A Discord id is found exactly when the lower-cased name is in the table, and it is the one stored there. |
| LinkStore.AddThenFind | Psyduck/link_database.py:119 | A name added in one letter case is found in any other, since the lookup lower-cases too (line 145). |
| LinkStore.OtherNamesUnchanged | Psyduck/link_database.py:121-128 | Adding or removing one name leaves the lookup of every other name unchanged. |
| LinkStore.RemoveThenFind | Psyduck/link_database.py:193-201 | After a remove, the name is found in no letter case. |
| LinkStore.LinkDatabase.constructor | Psyduck/link_database.py:41-50 | Opening the store keeps the links and message mappings already in the database file, unchanged. |
| LinkStore.LinkDatabase.AddLink | Psyduck/link_database.py:103-128 | Upserts under the lower-cased name, returns True, keeps the message table and keeps the names lower-case. |
| LinkStore.LinkDatabase.GetDiscordId | Psyduck/link_database.py:131-154 | Returns DiscordIdOf the table and changes nothing. |
| LinkStore.LinkDatabase.GetRedditUsernames | Psyduck/link_database.py:157-177 | Returns exactly the stored names mapped to the id, each once. |
| LinkStore.LinkDatabase.RemoveLink | Psyduck/link_database.py:180-201 | Deletes the lower-cased name and returns True, even when the name was absent. |
| LinkStore.LinkDatabase.StoreMessageMapping | Psyduck/link_database.py:204-225 | Upserts the channel and the winner list, in order and with repeats, under the message id. |
| LinkStore.LinkDatabase.GetMessageMapping | Psyduck/link_database.py:228-253 | Returns the stored mapping as it was stored, or None for an unknown id. |
| RollLog.Put | Psyduck/roll_logger.py:52 | d[k] = v: k now maps to v and other keys are unchanged. A new key goes last, and keys stay distinct. |
| RollLog.CountRolls | Psyduck/roll_logger.py:51-52 | Each number's count rises by its multiplicity in the roll, and exactly the existing and rolled numbers have entries. Existing keys keep their places and new keys follow in the order of their first roll, as dict insertion orders them; distinct keys stay distinct. |
| RollLog.CountedStep | Psyduck/roll_logger.py:51-52 | Counting one more roll keeps the relation CountRolls states, for the counts, the keys and their order. |
| RollLog.SortByCount | Psyduck/roll_logger.py:107-111 | The sorted table is a permutation of the counts. |
| RollLog.SortByCountStable | Psyduck/roll_logger.py:107-111 | The sort is stable: entries with equal counts keep the order they have in the table. |
| RollLog.SortByCountSpec | Psyduck/roll_logger.py:107-111 | The sorted table lists every entry once, with counts non-increasing. |
| RollLog.FindSorted | Psyduck/roll_logger.py:107-111 | Sorting keeps every number's count and keeps the keys distinct. |
| RollLog.LinesAt | Psyduck/roll_logger.py:116-117 | The i-th line is "i. number|count" for the i-th sorted entry, numbered from 1. |
| RollLog.RenderLines | Psyduck/roll_logger.py:115-117 | The loop appends exactly the numbered lines of the sorted table. |
| RollLog.RenderDescription | Psyduck/roll_logger.py:107-120 | The description built is the lines of the sorted counts joined by newlines, or the placeholder. |
| RollLog.ParseLineOfLine | Psyduck/roll_logger.py:169-179 | Every rendered line parses back to the entry it shows and holds no newline. |
| RollLog.DescriptionRoundTrip | Psyduck/roll_logger.py:167-181 | Parsing a description rendered by lines 116-118 into an empty table gives every number its count. |
| RollLog.PlaceholderIffEmpty | Psyduck/roll_logger.py:114-120 | The placeholder "No rolls yet today." is shown exactly when nothing has been rolled. |
| RollLog.SkippedLine | Psyduck/roll_logger.py:171-181 | A line the parser rejects leaves the table as it was. |
| RollLog.DateTextFields | Psyduck/roll_logger.py:30-33 | The date line splits on "/" into month and day without leading zeros and a two-digit year. |
| RollLog.TwoDigits | Psyduck/roll_logger.py:32 | strftime('%y') gives exactly two decimal digits. |
| RollLog.FirstTodaysEmbed | Psyduck/roll_logger.py:152-163 | The index of the first "Roll History" embed preceded by today's date, with none before it. |
| RollLog.ParseStoredDescription | Psyduck/roll_logger.py:166-181 | The parsing loop stores every well-formed line, as ParseDescription, and keeps keys distinct. |
| RollLog.RollLogger.constructor | Psyduck/roll_logger.py:18-24 | Starts with no date, no message id and no counts. |
| RollLog.RollLogger.CreateNewDayEmbed | Psyduck/roll_logger.py:62-92 | A new day sets the date and empties the counts. The message id becomes the new embed's when sending succeeds. |
| RollLog.RollLogger.UpdateEmbed | Psyduck/roll_logger.py:94-139 | With no message id nothing happens. Otherwise the description is shown, and a NotFound clears the id; the date and counts never change. |
| RollLog.RollLogger.LogRoll | Psyduck/roll_logger.py:35-60 | The date becomes today. The counts are the day's counts, emptied when the date changes, with the roll counted as CountRolls states. On a new day the id becomes the new embed's when it was sent, and a NotFound edit clears it. The new description is shown exactly when there is a message id and the edit succeeds. |
| RollLog.RollLogger.InitializeFromChannel | Psyduck/roll_logger.py:141-190 | Among the last 50 messages, the first of today's embeds sets the id and date and loads the parsed counts. Without one, nothing changes. |
| LinkView.Click | Psyduck/link_view.py:21-61 | A non-admin is deferred. For the admin: no mapping and no winners each get their notice, one winner opens the modal for that name, and several show the selector with all names. |
| LinkView.LinkButtonClick | Psyduck/link_view.py:21-61 | The button reads the message's stored mapping, decides as Click, and changes nothing. |
| LinkView.Cut | Psyduck/link_view.py:92-94 | s[:n] is the prefix of s of length min(n, \|s\|). |
| LinkView.OptionFor | Psyduck/link_view.py:85-96 | An option carries the name as its value, with caption and description at most 100 characters. It is marked linked exactly when a non-empty id is stored, and its caption is "u/name" when that fits. |
| LinkView.SelectorOptions | Psyduck/link_view.py:81-96 | One option per distinct winner, in order of first appearance, each OptionFor that name. |
| LinkView.SelectorOffersEachWinnerOnce | Psyduck/link_view.py:81 | Every winner has an option, no two options share a name, and the options keep the winners' first-appearance order. |
| LinkView.MentionFor | Psyduck/link_view.py:214-223 | The stored link's mention comes first; the guild match is used only without a link. |
| LinkView.Mentions | Psyduck/link_view.py:213-223 | There is at most one mention per winner; MentionsAt gives their order. |
| LinkView.MentionsAt | Psyduck/link_view.py:213-223 | One mention per winner that has a stored link or a guild match, and nothing else: the i-th winner's MentionFor sits after the mentions of the winners before it. |
| LinkView.AnnouncementLines | Psyduck/link_view.py:226-235 | The rebuilt content splits into the header ("# WINNER" for one name, "# WINNERS" otherwise) and the mentions, one per line. |
| LinkView.MentionsAtMostOne | Psyduck/link_view.py:227-228 | A single stored name gives at most one mention. |
| LinkView.LinkedWinnersMentioned | Psyduck/link_view.py:214-218 | When every winner is linked, each gets their stored id's mention, in winner order. |
| LinkView.UpdateWinnerMessage | Psyduck/link_view.py:198-239 | No mapping means no edit. Otherwise the message is edited to the header and the mentions of the stored names. |
| LinkView.OnSubmit | Psyduck/link_view.py:145-196 | An id that is not all digits after strip is rejected and writes no link. Otherwise the stripped id is linked. The announcement is rebuilt only when fetch_user found the id and a mapping exists; when the lookup failed, the second reply raises and the rebuild is skipped. The message table never changes. |
| LinkView.SubmittedWinnerMentioned | Psyduck/link_view.py:170-185 | After a winner is linked, the rebuilt announcement mentions the new id for that winner, whatever the guild match says. |
| LinkView.DigitIdMentionOneLine | Psyduck/link_view.py:151 | A digits-only id gives a mention without a newline, so the rebuilt content keeps one mention per line. |

## Left out

- Discord transport and UI are not modelled: embeds, buttons, views, modals, ephemeral replies and DMs (`send_caller_dm`, `send_error_to_admin`). Their effects appear only as message ids, or as "send failed" in the `World` value.
- Fuzzy matching of Reddit names to guild members (`match_reddit_to_discord_user`) is defined outside these files. It is a function parameter, `guildMatch`.
- The Random.org HTTP call, asyncpraw fetches, `uuid4` and `asyncio.sleep` are not modelled. Replies, request ids and clock readings are inputs; waiting is reported as seconds.
- Malformed replies are not modelled. `RandomOrg.Reply` and `Reddit.Submission` always carry every field the code reads with `[...]` or `.get` on a dict. Two shapes are outside the model:
  - A Random.org reply with `result` but no `random` or `signature`. It still counts against its key (random_org.py:109-110). Then `result['random']` raises at command_handler.py:199-200, or format_verification_data raises at random_org.py:141-150. The catch-all at command_handler.py:333 ends the call with nothing published and no link marked.
  - A gallery submission whose `gallery_data` is set but whose `media_metadata` is None. `.get` on None raises at reddit_manager.py:115, get_post_info returns None, and the call is refused as `FetchFailed` (command_handler.py:128-132). `Reddit.Submission` reads missing metadata as an empty sequence, which gives a post without an image instead.
- The endless retry loop is not modelled as non-terminating: `RandomOrgManager.GenerateRandomNumbers` consumes a finite sequence of attempts. When all of them fail, the outcome is `StillRetrying`, which stands for the loop still running.
- Floating-point percentages are not modelled. The winner line always shows "0%", because the post record never carries per-user slot counts. The announcement embed fields with percentages and the 10-character display-name truncation are left out.
- The embed's tag and image fields are left out, as is the `str(number)` key fallback in the announcement. The fresh record has integer keys, so the fallback never fires there.
- Timezone handling is not modelled: Random.org times are integer UTC seconds. The roll-log date, taken in US Eastern time, is given as month, day and year.
- SQLite details are left out: connections, WAL mode, schema creation, `get_all_links` and the timestamp column defaults.
- The `called_links_lock`, the ledger file and queue_manager.py are left out. The ledger is a sequence of lines read at the start and re-read before the append; concurrency is not modelled.
- `WinnerSelectView.select_callback` and the modal's default value only route the chosen name to `LinkView.OnSubmit`, so they are left out.
- The Discord user lookup in `on_submit` (`fetch_user`) is an input, `userFound`. Its warning reply is not modelled, only its effect: the link is written, and the rebuild is skipped.
- `add_link` returns True or raises, so the "Failed to create link" branch of `on_submit` never runs and is not modelled. When `add_link` raises after its retries, the outer handler replies with an error and nothing is stored; the model treats the link table as never failing.
- Regular-expression character classes are ASCII only (digits, whitespace, `\w`). Python's Unicode classes and Unicode case folding under `re.IGNORECASE` are not modelled.
- The string helpers `Text.Strip`, `Text.Words`, `Text.IsDigitString`, `Text.ToLower` and `Text.ParseInt` know only ASCII whitespace, the digits 0-9 and the letters A-Z. Python's `strip`, `split`, `isdigit`, `lower` and `int` also accept Unicode whitespace such as U+00A0, other decimal digits such as "３", and non-ASCII letters. So the model gives no result, or a different one, where the program would strip, lower-case or parse such text. This affects `Utils.ParseCommand` (for example "<@bot> ３" or "<@bot> ²"), `LinkView.OnSubmit` (an id with a leading U+00A0), `Reddit.ParseSpotLine`, the roll-log line parser `RollLog.ParseLine`, and the name lookups of `LinkStore.DiscordIdOf`.
- `RandomOrg.RenderValue` renders lists only at the payload's top level. That is the only depth `format_verification_data` uses.
- `Database.Lookup`: states only that an unknown id yields None. What a stored row reads back as is stated by `Database.StoreThenGet`.
- Link-table calls inside the announcement (`get_discord_id`, `store_message_mapping`) are modelled as never failing. When they raise after their retries, the catch-all of `send_general_chat_announcement` ends the announcement: before the send nothing is announced, and after it no mapping is stored.
- `Utils.VerificationFileInjective`: stated for payloads without '═'. `Utils.PayloadFileInjective` discharges that premise for every payload `format_verification_data` writes, because those are ASCII.
