# botkit: verification of the login protocol, the token codec, the scheduler and the identity gates

botkit is a Go framework for WhatsApp group bots. Its security-relevant part is membership-gated
login: the bot mints a magic link in a group, the link is redeemed for a session token while the
group confirms that the person is in it, the token is refreshed hourly against the group again, and a
dashboard verifies tokens on its own. This project models that protocol and what it stands on, and
proves what it promises over whole runs.

`dafny verify dfyconfig.toml` checks everything.

## How the model is laid out

| file | what it models |
|---|---|
| `Time.dfy`, `Wrappers.dfy` | nanosecond instants with `Unix()` as floor; `Option`, `Result` |
| `Kv.dfy` | the shared table of `store/kv.go`: class `KV` over a map from key to value and write second, and SQLite's `LIKE` |
| `Identity.dfy`, `Transport.dfy`, `DirectMessages.dfy` | phone keys, the two membership scans, the direct-message gate |
| `Base64Url.dfy`, `Json.dfy`, `Token.dfy` | both token codecs, Go and TypeScript, on bytes |
| `Webauth.dfy` | configuration defaults and class `Auth`: `MintLink`, `Redeem`, `Refresh`, `Verify` over the shared table |
| `Protocol.dfy` | the same calls as a transition system: every store statement, clock read, membership query and signing is a step of its own, of any number of calls in flight, between clock ticks, membership changes, failures, abandoned calls and restarts |
| `Sequential.dfy` | calls that nothing comes between do what the class's methods do |
| `Invariants.dfy`, `SingleUse.dfy`, `Guarantees.dfy`, `Completeness.dfy`, `Links.dfy`, `Sweeps.dfy`, `Dashboard.dfy` | what holds over every run |
| `Runs.dfy`, `DashboardLimits.dfy` | runs built step by step, and with them the exact limits of the dashboard's local decision |
| `Calendar.dfy`, `Schedule.dfy` | dates and fire times |
| `Bot.dfy`, `Daily.dfy` | registering, starting and firing timed jobs in one process |
| `SharedKv.dfy` | links and day markers in one table |
| `Jobs.dfy`, `OncePerDay.dfy`, `SharedNames.dfy` | timed jobs over many process lives, as a transition system; a bound on it, and when the bound fails |
| `Pairing.dfy` | the pairing endpoint's cooldown |

A step that a method of the source performs in one go is one Dafny method on a class where the source
updates an object (`Kv.KV`, `Webauth.Auth`, `Bot.Bot`, `Pairing.Server`). Where the order of events
between several calls matters, the same code is broken into the steps of `Protocol.Step` or
`Jobs.Step`; the `…AloneMeetsItsSpec` lemmas of `Sequential` and `Jobs` tie the two forms together.

## What is taken as given

- Nonces never repeat (`Protocol.DoGenerate` refuses a repeated one): they are 32 random bytes.
- The MAC is ideal: `Token.Unforged` says of a presented token that a matching signature covers a body
  that was signed. It is a hypothesis of the theorems about token texts, not a property of SHA-256.
- The WhatsApp library parses back the JIDs it printed. This is `Config.RoundTrips` for a particular
  JID and is required only where a theorem needs it; the printing and parsing functions are
  parameters. `Auth`'s methods also take it that JIDs are written in ASCII.
- The bot's clock, SQLite's `now` and the dashboard share one wall clock that does not run backwards.
- JavaScript holds the times of a token exactly (`Dashboard.ExactTimes`); `Token.VerifyTokenSigned`
  says when it does.
- One process at a time runs over a table.

## Where the code and its documentation differ

- `Claims.Expires` is documented as IssuedAt + RecheckInterval (`webauth/token.go:20`). The code
  truncates the sum, so this is exact only for intervals of whole seconds
  (`Webauth.ExpiryIsIssuedPlusRecheck`).
- `DeleteExpired` is documented as removing keys under a prefix (`store/kv.go:83`). SQLite's `LIKE`
  ignores ASCII case and the statement does not escape wildcards, so it can also reach other keys; exactly
  for which prefixes is `Kv.SweepReachesOnlyThePrefix`. No key that botkit writes is affected
  (`SharedKv.SweepKeepsMarkers`).
- "Past LinkTTL means unusable anyway" (`webauth/webauth.go:81-82`) is the reason sweeping is harmless.
  It is exact for lifetimes of whole seconds; with any other lifetime there is a run in which a sweep
  turns a redemption away that would have succeeded (`Sweeps.SweepsChangeNothingForWholeSeconds`).
- The ceiling is documented as absolute. Refresh and Verify enforce it; the dashboard tests `exp` only, and
  Refresh adds the interval without looking at the ceiling. A refreshed token outlives its ceiling on the
  dashboard exactly when that sum passes it (`DashboardLimits.WhoOutlivesTheCeiling`). Since the dashboard
  refreshes stale cookies only, the ceiling holds there for all runs exactly for intervals of at most a
  second or of the whole session (`DashboardLimits.RenewalsKeepTheCeiling`); of the tokens that any caller
  can get by refreshing, only for the former (`DashboardLimits.CeilingHoldsOnlyForTinyIntervals`).
- A removed member is documented to keep access for at most RecheckInterval (`webauth/config.go:39-42`). On
  the dashboard an admission that needed a refresh is backed by a membership check between its clock read
  and the admission, so the bound holds for it exactly if the round trip is shorter than the interval, or
  the interval is the whole session and no stale cookie is ever refreshed
  (`DashboardLimits.RoundTripsAreBackedIfShort`).
- The direct-message gate and the dashboard are both described as asking whether a person is in a group.
  The gate asks by phone only, so it drops whoever has no known phone
  (`DirectMessages.GateIsMembershipWithAPhone`).
- "At most once per calendar day" (`bot/schedule.go:21-22`) holds for daily jobs with different names,
  up to failures that the count in `OncePerDay.SuccessesAreBounded` charges; registering two daily jobs
  under one name breaks it, even with every timer on time (`SharedNames.OnceADayIffNamesDiffer`). A firing
  that starts after midnight uses up the next day's marker (`Daily.LateFiringTakesTheNextDay`).

## Model

| member | source | states |
|---|---|---|
| Kv.LikePrefix | store/kv.go:92-94 | `LIKE prefix \|\| '%'` with a literal prefix matches exactly the keys that start with it up to ASCII case |
| Kv.SweepReachesOnlyThePrefix | store/kv.go:83-94 | for any prefix, the sweep stays under it for all keys if and only if the prefix has no wildcard, which the statement does not escape, and no ASCII letter |
| Kv.KV.Get | store/kv.go:34-45 | the stored value or its absence, or an error; the table is untouched |
| Kv.KV.Set | store/kv.go:47-57 | upsert of one row with the statement's second, every other row as it was; an error may come before or after the effect |
| Kv.KV.Consume | store/kv.go:59-73 | one atomic take: whenever it reports a value, that row is gone and every other row is as it was |
| Kv.KV.Delete | store/kv.go:75-81 | the row is gone, no error if it was absent, and every other row is as it was |
| Kv.KV.DeleteExpired | store/kv.go:83-103 | exactly the rows reached and written more than the age ago in whole seconds go, all others stay, and their number is reported, or zero if only the count failed |
| Identity.KeepDigits | identity/identity.go:22-27 | the builder loop keeps the digits in order |
| Identity.DigitsOfOne | identity/identity.go:23-26 | of a single character, the ten digits are kept and nothing else |
| Identity.DigitsOfAppend | identity/identity.go:22-27 | keeping digits goes character by character |
| Identity.Normalize | identity/identity.go:21-36 | the canonical key of the raw number, characterised by the rows below |
| Identity.NormalizeIsCanonical | identity/identity.go:11-36 | for a country code, all keys are digit strings that never start with "0", empty exactly for input without digits, idempotent and a function of the digits alone, if and only if the code is a non-empty digit string not starting with "0" |
| Identity.KeyKeepsTheNumber | identity/identity.go:28-35 | the key is the digits as they stand, or for n > 0 leading zeros the country code and the digits after them |
| Identity.KeysOfNationalNumbers | identity/identity.go:15-20 | two national numbers share a key if and only if they agree after their zeros, and a national and an international one if and only if the latter is the code and those digits |
| Identity.PunctuationIsIgnored | identity/identity.go:15-20 | punctuation anywhere in a number leaves its key alone |
| Transport.IsMember | transport/message.go:83-114 | the early-return scan gives the answer characterised by the next row |
| Transport.MembershipByFormOrNumber | transport/message.go:83-114 | yes if and only if group and member are given, the group is known, and some participant has a form with the member's user on the member's server, or a number with the same key as one the member resolves to; an error if and only if the query fails |
| Transport.MembersFrom | transport/client.go:323-333 | one member per participant, in order, with JID, admin flag and the number it goes by: the phone field, a phone JID's user, or the store's entry |
| Transport.Members | transport/client.go:244-255 | the members of the group, or an error if the query fails |
| Transport.AnyAnswer | transport/message.go:123-134 | yes only with a listing group, no only if every group answered without one, an error only with a failed query |
| Transport.AnyHasPhone | transport/message.go:128-132 | the inner scan finds the number exactly if a participant has it |
| Transport.IsMemberOfAny | transport/message.go:118-135 | the two nested scans answer as the gate's specification does, failures in order included |
| Transport.OrderDoesNotMatter | transport/message.go:98-113 | the answer is the same for every permutation of the participants |
| Transport.UnresolvedNeedsTheSameServer | transport/message.go:78-104 | an unresolvable identity is admitted if and only if some participant's form has its user on its server; equal digits on other servers never let it in |
| Transport.ResolvedLidIsAdmitted | transport/client.go:186-201 | a LID that the store maps to a phone JID with a digit is admitted to every known group that lists that number |
| Transport.FirstDecides | transport/message.go:123-134 | the first group that fails or lists the number decides between error and yes |
| Transport.GateByNumber | transport/message.go:118-135 | the gate says yes if and only if the phone has a key and some group lists a number with it, every group before having been answered |
| Transport.GateImpliesDashboard | transport/message.go:116-135 | a number that passes the direct-message gate passes the dashboard's check as a phone JID in one of the groups |
| Transport.GatesAgree | transport/message.go:83-135 | on answered queries and consistent records the two gates agree for every number with a digit |
| Transport.GatesDisagreeWithoutDigits | transport/message.go:119-122 | a number without digits is refused by the gate and can still be matched by the dashboard |
| DirectMessages.Handle | bot/bot.go:225-241 | with a handler, a direct message runs it always, or exactly on a yes of the gate for the sender's phone |
| DirectMessages.AdmittedSenderIsAMember | bot/bot.go:229-238 | a sender the gate lets through, by phone or LID, is found by the membership check of the same identity in one of the groups |
| DirectMessages.GateIsMembershipWithAPhone | bot/bot.go:229-238 | for any sender, on answered queries and records whose phone agrees with the LID store, the gate says yes if and only if the sender resolves to a phone with a digit and the membership check of that sender says yes for some managed group |
| DirectMessages.UnresolvedSenderIsDropped | bot/bot.go:229-238 | the case that the condition above shuts out: a listed LID without a known phone is dropped by the gate although the dashboard admits it |
| Base64Url.UnpackPack | webauth/token.go:32-33 | packing bytes to sextets is inverted by unpacking, and never leaves a length of 1 mod 4 |
| Base64Url.UnpackFails | webauth/token.go:50-53 | unpacking fails exactly for lengths of 1 mod 4 |
| Base64Url.DecodeEncode | webauth/token.go:32-61 | Go's decoder inverts its encoder on all byte strings, and encoded text stays in the alphabet |
| Base64Url.AlphabetIsTheTable | webauth/token.go:32-33 | the alphabet is Table 2 of RFC 4648 |
| Base64Url.GroupIsTheNumber | webauth/token.go:32-33 | four sextets are their three bytes as one number, most significant bits first |
| Base64Url.LineBreaksAreSkipped | webauth/token.go:50-58 | line breaks anywhere do not change what Go decodes |
| Base64Url.B64urlDecode | examples/webauth-dev/web/lib/token.ts:18-25 | the copying loop yields exactly the decoded bytes, or throws when `atob` does |
| Base64Url.DecodersAgree | examples/webauth-dev/web/lib/token.ts:18-25 | on every text over the base64url alphabet, refusals included, the dashboard's decoder equals Go's |
| Base64Url.OnlyTheDashboardReadsTheStandardAlphabet | examples/webauth-dev/web/lib/token.ts:18-25 | text over the standard alphabet with '+' or '/' is refused by Go, and decoded by the dashboard if and only if its length is not 1 mod 4 |
| Json.ReadEscaped | webauth/token.go:28 | a printed string literal, escapes included, is read back, for all ASCII strings |
| Json.ReadPrintedInt | webauth/token.go:28 | a printed integer is read back, whatever non-digit follows |
| Json.ReadPrintedClaims | webauth/token.go:16-32 | printed claims are read back, for all ASCII strings and all integers |
| Json.ReadPrintedRecord | webauth/webauth.go:48-53 | a printed nonce record with a 64-bit expiry is read back |
| Json.ClaimsText | webauth/token.go:16-31 | the signed text of claims, character by character, for strings that need no escape |
| Json.RecordText | webauth/webauth.go:48-53 | the stored text of a nonce record, character by character, likewise |
| Token.JoinSplit | webauth/token.go:43 | splitting a token at dots loses nothing and leaves no dot in a segment |
| Token.SigningInputIsInjective | webauth/token.go:54 | the text under the MAC determines the first two segments |
| Token.HeaderIsHs256 | webauth/token.go:24-25 | the fixed header is the encoding of {"alg":"HS256","typ":"JWT"} |
| Token.ParseSigned | webauth/token.go:27-70 | `parse(sign(c)) = c` for all printable claims with group and member |
| Token.VerifyTokenSigned | examples/webauth-dev/web/lib/token.ts:39-76 | the dashboard reads the same claims out of a signed token exactly when its numbers hold the three times |
| Token.SmallNumbersAreExact | examples/webauth-dev/web/lib/token.ts:7-13 | integers below 2^53 in size are held exactly |
| Token.FirstInexactNumber | examples/webauth-dev/web/lib/token.ts:7-13 | 2^53 + 1 is not |
| Token.JsNumberIsNearest | examples/webauth-dev/web/lib/token.ts:68-72 | a decimal is read as a nearest multiple of the spacing of doubles around it, the even one of two |
| Token.IncompleteClaimsAreRefused | webauth/token.go:66-68 | correctly signed claims without group or member are refused by both sides |
| Token.BodyIsInjective | webauth/token.go:27-34 | different claims have different bodies under the MAC |
| Token.BodyDeterminesClaims | webauth/token.go:42-70 | a token over the body of `c` parses to `c` or an error, whatever its signature text looks like |
| Token.BodyDeterminesTsClaims | examples/webauth-dev/web/lib/token.ts:39-76 | the same on the dashboard |
| Token.AcceptedExactlyByItsMac | webauth/token.go:50-69 | a token over the body of printable, complete claims is accepted by either side if and only if its third segment decodes to the MAC, in whatever text |
| Token.OnlyTheBotReadsTheHeader | examples/webauth-dev/web/lib/token.ts:43-65 | the dashboard accepts any header that the MAC covers, the bot only its own |
| Token.AcceptedWasSigned | webauth/token.go:36-70 | under an ideal MAC each side accepts only claims that were signed |
| Token.BothSidesReadTheSame | examples/webauth-dev/web/lib/token.ts:39-76 | a token both sides accept gives both the same claims, up to the dashboard's numbers |
| Webauth.WithDefaults | webauth/config.go:45-96 | which configurations are refused, given what URL parsing says of the URL, and every field of an accepted one: secrets kept, unset knobs at 15 minutes, 48 hours and 1 hour, one trailing slash dropped |
| Webauth.ConfigOf | webauth/config.go:98 | the calls see the configuration's own durations and flag, which are positive and ordered if it is sound |
| Webauth.Auth.MintLink | webauth/webauth.go:76-107 | the whole effect: refusal before any effect, the sweep, the stored record, the URL, and every failure in between |
| Webauth.Auth.Redeem | webauth/webauth.go:113-167 | the record is taken before anything is tested; the answer is the token for the stored record or the one denial |
| Webauth.Auth.RedeemRecord | webauth/webauth.go:146-166 | expiry, parsing, membership, in that order, come to the specified claims |
| Webauth.Auth.AssertMember | webauth/webauth.go:217-231 | true exactly on a yes; a failed query denies |
| Webauth.Auth.Refresh | webauth/webauth.go:172-198 | the answer is the token for the renewed claims or the one denial; exp plays no part |
| Webauth.Auth.RefreshParsed | webauth/webauth.go:178-197 | ceiling, parsing, membership come to the specified claims |
| Webauth.Auth.Verify | webauth/webauth.go:202-212 | accepts exactly the parsed claims whose expiry and ceiling seconds both lie ahead |
| Webauth.RedeemSigns | webauth/webauth.go:141-166 | Redeem signs if and only if the stored text is the record of a live link with readable JIDs and the group says yes; and what it signs, field by field |
| Webauth.RefreshSigns | webauth/webauth.go:178-197 | Refresh signs if and only if the ceiling lies ahead, the JIDs are readable and the group says yes; and what it signs, field by field |
| Webauth.ExpiryIsIssuedPlusRecheck | webauth/token.go:20 | exp is IssuedAt + RecheckInterval for all mints if and only if the interval is whole seconds |
| Webauth.StoredLinkRedeems | webauth/webauth.go:95-166 | through the stored text, a minted link yields a session exactly up to the last second of its life while the group says yes |
| Invariants.StepKeepsInv | webauth/webauth.go:76-243 | every step of any call, failure or restart keeps the invariant on tokens, calls, links and rows |
| Invariants.RunKeepsInv | webauth/webauth.go:76-243 | the invariant holds at every state of every run, with or without sweeps |
| Invariants.RunExtends | webauth/webauth.go:76-243 | history only grows: clock, tokens, checks and mintings of an earlier state are kept |
| Invariants.NewCheckIsTrue | webauth/webauth.go:219-231 | a check goes on record only on a yes of the group there and then |
| Sequential.RefreshAloneMeetsItsSpec | webauth/webauth.go:172-198 | undisturbed, the steps of Refresh sign what the method's specification says, and otherwise nothing |
| Sequential.RedeemAloneMeetsItsSpec | webauth/webauth.go:113-167 | the same for Redeem, and the record goes in single-use mode |
| Sequential.MintAloneMeetsItsSpec | webauth/webauth.go:76-107 | undisturbed, the steps of MintLink leave the table its specification says, under every failure of its two statements |
| Guarantees.RevocationBound | webauth/webauth.go:178-243 | whatever Verify accepts at t is backed by a yes of the group in (t - RecheckInterval, t] |
| Guarantees.RemovedMeansLockedOut | webauth/config.go:39-42 | someone out of the group from T on is refused from T + RecheckInterval on |
| Guarantees.CheckWasTrue | webauth/webauth.go:219-231 | every check on record was a true answer at an earlier state of the run |
| Guarantees.ChainHasRoot | webauth/webauth.go:166-197 | every refresh chain ends in one redeemed link, under that login's ceiling |
| Guarantees.ChainKeepsIdentity | webauth/webauth.go:152-197 | group and member of the link ride through the chain unchanged |
| Guarantees.Provenance | webauth/webauth.go:113-212 | any signed claims, expired or not, descend from one redemption of a live minted link for the same group and member, and in single-use mode no other chain starts at that link |
| Guarantees.ProvenanceForTexts | webauth/token.go:36-70 | the same for every text that Refresh or Verify parses, under an ideal MAC |
| Guarantees.CeilingNeverMoves | webauth/webauth.go:166-212 | every token of a login carries floor(redeem + SessionTTL) and none is accepted from that second on |
| Guarantees.AcceptedExactlyWhileFresh | webauth/webauth.go:202-243 | a token of a run is accepted if and only if the clock is below floor(clock read + RecheckInterval) and floor(redeem + SessionTTL) |
| Guarantees.RefreshAloneSucceedsBelowTheCeiling | webauth/webauth.go:178-197 | with nothing between its steps, Refresh of any token of a run succeeds if and only if the ceiling has not come and the group says yes, keeping ceiling and identity |
| Completeness.RefreshSucceedsBelowTheCeiling | webauth/webauth.go:172-198 | whatever goes on between its steps, a Refresh signs if and only if the clock it read was below the ceiling and the group said yes when asked; then the same session with new times under the old ceiling |
| Completeness.RedeemSucceedsWithinTheLink | webauth/webauth.go:113-167 | likewise a Redeem that got the record signs if and only if the clock it read was within the link's last second and the group said yes when asked |
| Links.RowStays | store/kv.go:59-95 | a stored row stays as it is until a step takes or rewrites it or a sweep comes more than LinkTTL after its write second, whatever happens to other links |
| Links.StoredLinkStaysRedeemable | webauth/webauth.go:76-166 | the first Redeem of a stored link signs if and only if it reads its clock within the link's last second and the group says yes, whatever happens to other links; for whole-second lifetimes, and for others if no sweep was late for the row |
| Completeness.QuietLeavesCall | webauth/webauth.go:113-198 | over any stretch of a run without a restart or a step of its own, a call in flight stays as it is |
| Guarantees.RevocationBoundForTexts | webauth/webauth.go:202-212 | the revocation bound for any text Verify accepts, under an ideal MAC |
| Guarantees.SignedTextIsAcceptedWhileFresh | webauth/webauth.go:202-212 | the signed text of a token of the run is read back and accepted exactly until then |
| SingleUse.StepKeepsOnce | webauth/webauth.go:119-131 | every step keeps: a taken record is gone and belongs to one call, which signs at most once |
| SingleUse.LinkRedeemsOnce | webauth/webauth.go:119-150 | in single-use mode a link yields at most one token over a whole run, on a clock read within the link's last second |
| SingleUse.RecordIsHandedOutOnce | store/kv.go:59-73 | once a Redeem call has been handed a record, nothing finds it again for the rest of the run |
| SingleUse.OneCallHoldsTheRecord | store/kv.go:59-61 | of all calls in flight on one link at most one holds its record |
| Sweeps.StaleIsExpired | webauth/webauth.go:81-83 | with a whole-second lifetime a swept row's link is already expired |
| Sweeps.TakeKeepsSame | webauth/webauth.go:127-150 | a Redeem that misses in the swept table can only hit an expired record in the unswept one |
| Sweeps.RunKeepsSame | webauth/webauth.go:81-107 | the swept and the unswept system stay in step over every run |
| Sweeps.SweepsChangeNothingForWholeSeconds | webauth/webauth.go:81-107 | sweeping changes no outcome of any run if and only if the link lifetime is whole seconds |
| Sweeps.RowWasStored | webauth/webauth.go:103 | every row was written by a store step of the run, in the second it carries |
| Sweeps.StoreStaysBounded | webauth/webauth.go:81-105 | right after a sweep there are at most as many rows as links stored in the last LinkTTL + 1s |
| Sweeps.StoreStaysBoundedBetweenSweeps | webauth/webauth.go:81-105 | at any later time there are at most that many rows and one for each link stored since the sweep |
| Dashboard.Middleware | examples/webauth-dev/web/middleware.ts:15-54 | admits exactly on a genuine cookie that is fresh or was refreshed, and replaces the cookie exactly in the second case |
| Dashboard.SignedCookieIsAnswered | examples/webauth-dev/web/middleware.ts:15-53 | with a signed token of a run as cookie, a request goes through untouched until floor(clock read + RecheckInterval), then with the fetched session as new cookie, and else to /denied |
| Dashboard.FreshTokenBounds | examples/webauth-dev/web/middleware.ts:23-24 | a token is fresh on the dashboard for less than RecheckInterval past its clock read and past its ceiling |
| Dashboard.LocalAdmission | examples/webauth-dev/web/middleware.ts:20-24 | an admission on the cookie alone at t is backed by a yes in (t - RecheckInterval, t], and t is below the ceiling plus RecheckInterval |
| Dashboard.RefreshedAdmission | examples/webauth-dev/web/middleware.ts:26-53 | an admission on a refresh is backed by a yes for the cookie's own group and member between the clock read and the admission, below the ceiling, and hands on a token for the same identity under the same ceiling |
| Dashboard.AdmittedRequestIsBacked | examples/webauth-dev/web/middleware.ts:15-53 | every request admitted at t, on the cookie's text alone or on the bot's answer to it, is backed by a yes for the cookie's group and member; in (t - RecheckInterval, t] if the request took less than RecheckInterval, and with t below Absolute + RecheckInterval if it took no more |
| DashboardLimits.WhoOutlivesTheCeiling | examples/webauth-dev/web/middleware.ts:23-24 | no token signed for a link can be admitted past its ceiling, and one signed by a refresh can if and only if floor(clock read + RecheckInterval) is past the ceiling |
| DashboardLimits.RefreshOutlivesTheCeiling | webauth/webauth.go:178-197 | refreshing a session below its ceiling on a yes gives a token that outlives the ceiling if and only if floor(now + RecheckInterval) is past it |
| DashboardLimits.CeilingHoldsOnlyForTinyIntervals | webauth/webauth.go:178-197 | counting every Refresh a caller may make, no token of any run outlives its ceiling if and only if RecheckInterval is at most a second |
| DashboardLimits.WholeSessionIntervalsNeverRenew | examples/webauth-dev/web/middleware.ts:24-42 | when RecheckInterval equals SessionTTL, a stale cookie is never refreshed |
| DashboardLimits.RenewalsKeepTheCeiling | examples/webauth-dev/web/middleware.ts:23-42 | no token the dashboard fetches for a stale cookie outlives its ceiling, in any run, if and only if RecheckInterval is at most a second or the whole session |
| DashboardLimits.SlowRequestIsNotBacked | examples/webauth-dev/web/middleware.ts:28-42 | when RecheckInterval is below SessionTTL, for every round trip of at least RecheckInterval there is a run in which the admission has no yes in (t - RecheckInterval, t] |
| DashboardLimits.RoundTripsAreBackedIfShort | examples/webauth-dev/web/middleware.ts:20-53 | admissions after round trips of a given length are backed by a yes in (t - RecheckInterval, t] in all runs if and only if the length is below RecheckInterval or the interval is the whole session |
| DashboardLimits.RoundTripsStayNearTheCeilingIfShort | examples/webauth-dev/web/middleware.ts:20-53 | admissions after round trips of a given length are below Absolute + RecheckInterval in all runs if and only if the length is at most RecheckInterval or the interval is the whole session |
| Calendar.DatesIncrease | schedule/schedule.go:82-89 | later days have later dates |
| Calendar.DateOfIsGregorian | schedule/schedule.go:82-89 | the date of a day is on the Gregorian calendar and has that day's number |
| Calendar.FormatText | schedule/schedule.go:88 | up to the year 9999 the text has the form 2006-01-02 with the digits of year, month and day |
| Calendar.FormatIsInjective | schedule/schedule.go:88 | the text of a date determines it |
| Calendar.FormatHasNoColon | schedule/schedule.go:88 | and has no colon |
| Schedule.DailyAt | schedule/schedule.go:42-56 | the hour asked for, or the nearest on the clock, in the zone asked for, or UTC |
| Schedule.NextIsTheFirstFireTime | schedule/schedule.go:59-67 | the next daily instant is the first after now at which the local clock shows hour:00, at most a day away |
| Schedule.JitterIsBounded | schedule/schedule.go:68-76 | a jittered delay stays within the jitter and is never negative |
| Schedule.PlainIntervalIsExact | schedule/schedule.go:68-76 | a plain interval waits exactly that long |
| Schedule.EveryDelayIsDrawn | schedule/schedule.go:68-76 | each positive delay within the jitter, and no other, comes of exactly one draw |
| Schedule.DateKeyIsTheDay | schedule/schedule.go:82-89 | two instants share a date key exactly when they fall on one local day |
| Schedule.DateKeyNamesTheDate | schedule/schedule.go:82-89 | the date key names the Gregorian date on which the instant falls in the zone, and no other |
| Bot.Bot.OnSchedule | bot/schedule.go:23-25 | appends the registration |
| Bot.Bot.StartJobs | bot/schedule.go:28-34 | one loop per registration in order, the i-th delayed by 5i seconds and its draw of milliseconds, no two in the same five seconds |
| Bot.Bot.FireJob | bot/schedule.go:51-67 | the whole effect of one firing: without a guard the body always runs and the table is untouched; with one, by marker, faults and the body's success |
| Bot.Bot.RunJob | bot/schedule.go:36-46 | the loop's ticks follow from the clock, UntilNext, the timers' lateness and the bodies' lengths, and are paced; each firing meets the table the earlier ones left |
| Bot.FollowingTicksArePaced | bot/schedule.go:40-45 | no firing comes before the instant it waited for, and no turn begins before the last one ended |
| Bot.TicksInFull | bot/schedule.go:40-45 | each clock read is the end of the turn before plus the gap, and each firing the instant waited for plus the timer's lateness |
| Bot.UnguardedFiringsRun | bot/schedule.go:51-63 | every firing of an interval job's loop runs its body and leaves the table alone |
| Daily.NoneDoubled | bot/schedule.go:40-45 | however long runs take, the waits are for instants at least a day apart |
| Daily.NoneSkipped | bot/schedule.go:40-45 | the waits are for consecutive days if and only if each run ends before the next daily instant |
| Daily.RunsUnlessTheDayIsTaken | bot/schedule.go:51-66 | with nothing going wrong, a firing runs the body if and only if no earlier one fell on the same local day |
| Daily.OnceADayEveryDay | bot/schedule.go:18-22 | in time and on their own day, all firings run, on consecutive local days |
| Daily.LateFiringTakesTheNextDay | bot/schedule.go:53-57 | a firing is lost to the marker exactly if the one before slipped past midnight |
| SharedKv.MarkerKeyIsInjective | bot/schedule.go:54 | a marker key determines job name and date, whatever the name contains |
| SharedKv.SweepKeepsMarkers | store/kv.go:90-95 | no sweep of links removes a marker |
| SharedKv.Execute | store/kv.go:34-103 | each statement of either subsystem, run on the store, replies and leaves the table as the model of it says |
| SharedKv.OthersShareIsKept | store/kv.go:34-103 | a statement of one subsystem leaves the other's rows alone |
| SharedKv.OwnShareDecides | store/kv.go:34-103 | what a statement replies and does to its own rows depends on those alone |
| SharedKv.MixedRunsProject | bot/bot.go:112-121 | any interleaving of links and markers on one table gives each the replies and rows of a run alone |
| Jobs.StepKeepsOneLoopEach | bot/bot.go:122-130 | every step keeps at most one loop per registration, and none before the first connect |
| Jobs.JobsAreSafe | bot/bot.go:122-130 | under any connects and reconnects nothing runs before the first, and no two firings of a registration overlap |
| Jobs.FiringAloneMeetsItsSpec | bot/schedule.go:51-67 | undisturbed, the steps of a guarded firing do what FireJob does and are counted once |
| Jobs.IntervalFiringMeetsItsSpec | bot/schedule.go:51-63 | the steps of an interval job's firing go straight to the body, whatever the table holds, and count nothing |
| Jobs.FirstConnectStartsEveryJob | bot/bot.go:122-130 | the first connect starts exactly one loop for every registration, and no later one changes the loops |
| Jobs.CrashIsCharged | bot/schedule.go:63-66 | a crash is charged once to each marker that a loop was about to set, and to nothing else |
| OncePerDay.MovingOneKeepsInv | bot/schedule.go:51-67 | a step of one loop that meets the bounds for its own key keeps all bounds |
| OncePerDay.CrashKeepsInv | bot/schedule.go:50 | a crash is paid for by the keys of the loops it caught between success and marker |
| OncePerDay.StepKeepsInv | bot/schedule.go:36-67 | every step, of this or the login subsystem, keeps the count within bounds |
| OncePerDay.SuccessesAreBounded | bot/schedule.go:48-67 | per job name and date, over any number of process lives, successes are at most one (none if already marked) plus failed reads, lost writes and crashes between success and marker |
| SharedNames.OnceADayIffNamesDiffer | bot/schedule.go:18-46 | over all runs in which every loop fires the moment its wait is over, a program has that bound if and only if no two of its daily jobs share a name |
| SharedNames.BothComeToTheDay | bot/schedule.go:28-46 | two daily loops, at any hours and in any zones, can be brought by their own timers into their bodies for one date at the same time |
| Pairing.RateBound | pairing/server.go:28-30 | attempts at least a cooldown apart are at most floor(W / 2 min) + 1 in any window of length W |
| Pairing.RateBoundIsTight | pairing/server.go:28-30 | for every window length that many are possible |
| Pairing.Server.constructor | pairing/server.go:61-63 | a new server has admitted nothing |
| Pairing.Server.HandlePair | pairing/server.go:104-134 | the reply in every case, and that attempts past the cooldown, failed pairings included, are recorded and stay two minutes apart |

## Left out

- Auth: the outcome of a call does not say which log line was written; every denial is one error, as in the source.
- Protocol: its rows are decoded nonce records; that the stored text is read back to them is `Webauth.StoredTextIsTheRecord`.
- Json: general JSON. The two record shapes are read exactly as printed, without reordered, repeated or unknown fields and without white space; text outside ASCII is not modelled.
- Token: `JSON.parse` and `TextDecoder` accept more payloads than the model's reader; under the ideal MAC only printed payloads reach them.
- Schedule: time zones with daylight saving, where `time.Date` is ambiguous, are not modelled; a zone is a fixed offset.
- Calendar: dates before 1970 have no date key in the model.
- Time: durations and instants are unbounded integers; int64 overflow of very long intervals is not modelled.
- Kv: `int64(age.Seconds())` is exact integer division; the rounding of float64 for ages of many months with sub-second parts is not modelled.
- Bot: jobs registered after `Run` has decided whether to open the table; `Bot.Bot.FireJob` covers the missing table, `Jobs` does not.
- Pairing: a restart forgets the last attempt, so the bound is per process life.
- WhatsApp itself: whatsmeow, sockets, pairing codes, typing indicators, retries after rate limits. A query is answered or fails.
- JID parsing and printing, including device suffixes, are parameters.
- SQLite's internals, HMAC-SHA256 and the random source.
- HTTP routing, bearer tokens, request bodies and status codes, cookies' attributes.
- Webauth.WithDefaults: URL parsing is not modelled; a flag says whether the URL came out absolute.
- gate.ParseGroups, redact, send, telemetry, message building, the development server, the React pages and logging: single-branch code or copying of fields.
