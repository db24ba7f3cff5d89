# Komainu per-guild state handlers, modelled in Dafny

This project models three pieces of the Komainu Discord bot. Each piece is a
chain of guards followed by a read-modify-write on a shared per-guild
key-value store:

- **Polls** (`interactions/vote.go`).
  - The creation modal becomes a draft poll. Option lines are split on
    newlines, capped at 25 and cut to 100 bytes, with keys `vote/<i>` kept in
    line order.
  - The draft is stored only in the callback that runs once its message
    exists.
  - A ballot from the poll's select menu passes four guards: the poll
    exists, it is still open, exactly one value was chosen, and that value is
    an option. The voter's choice is then recorded and the poll is stored
    again.
  - Deleting the poll's message deletes the poll.
- **Access lists** (`commands/access.go`).
  - `/access grant` appends a role to a command group's list when the role is
    absent.
  - `/access revoke` swaps the first match with the last element and
    truncates.
  - `/access list` renders every group in order.
- **Last seen** (`commands/seen.go`).
  - `/seen` is a decision over the stored timestamp.
  - `/inactive` sorts the guild's members into never seen, inactive (last
    seen at or before `now - 86400*days`) and active, then reports the count.

## How it is organised

- `common.dfy` (`Common`): `Option`, `Fetch` (a read that failed, found
  nothing or found a value), `Min` and `NoDup`.
- `text.dfy` (`Text`): `strings.Split` on newlines, decimal formatting and
  ASCII lower-casing. Go strings are byte strings, so a `char` stands for one
  byte.
- `store.dfy` (`Store`): ids, store keys, the `Vote` record, and the class
  `KeyValueStore`.
  - `entries` is the stored map, `unreadable` is the set of keys whose reads
    fail, and `writable` says whether writes succeed. Every store failure the
    handlers react to is therefore an explicit part of the state.
  - Reads are functions and `Set`/`Delete` are methods.
- `vote.dfy` (`Polls`), `access.dfy` (`Access`) and `seen.dfy` (`Seen`): the
  three handlers.
  - State-changing handlers are methods on the store. Each is specified
    against value-level functions (`Cast`, `AfterGrant`, `AfterRevoke`,
    `InactiveAmong`, ...), and the lemmas about those functions carry the
    properties.

Platform calls are inputs. These are:
- `now` (`time.Now()`);
- `editOk` (whether `EditMessage` succeeded);
- `me` (`state.Me()`);
- `members` (`Session.Members`, or `None` when the call fails);
- the parsed option values (`SnowflakeValue`, `IntValue`);
- `seconds`, the poll length that the text after `desc/` stands for;
- `groups`, the contents of `commandGroups`, which is declared outside the
  modelled files.

`storage.LastSeen` is a `Timestamp` read at `(guild, "seen", user)` in the
same store.

Grant and revoke each do a separate read and write on an ordered slice. The
model follows the code: the list is a sequence in stored order, and no
protection against a lost update between the read and the write is claimed.

## Model

| member | source | states |
|---|---|---|
| Text.SplitLinesRoundTrip | interactions/vote.go:133 | joining the pieces of `strings.Split(text, "\n")` with newlines gives back the text, so no line is lost or merged |
| Text.SplitLinesPieces | interactions/vote.go:133 | there is one more piece than newlines (an empty text is one empty line, and empty lines are kept), and no piece contains a newline |
| Text.DecimalInjective | interactions/vote.go:141 | `strconv.Itoa` is injective on naturals, so distinct indices give distinct texts |
| Text.Lower | commands/access.go:41 | lower-casing keeps the length, maps each letter A-Z to its lower-case letter (code point plus 32) and leaves every other character as it is |
| Store.KeyValueStore.Set | commands/access.go:61 | a write either replaces the value under the key and reports success, or fails and changes nothing; the failure flags are untouched |
| Store.KeyValueStore.Delete | interactions/vote.go:50 | a delete either removes the key (deleting an absent key is not an error) or fails and changes nothing |
| Polls.Truncate | interactions/vote.go:138-140 | an option's label is a prefix of its line, of length min(line length, 100) |
| Polls.OptionKeyInjective | interactions/vote.go:141 | `"vote/"+i` keys of different lines differ |
| Polls.ParseStep | interactions/vote.go:134-143 | one more line adds a fresh key with the truncated line as label and appends it to the order, so the option count grows by exactly one |
| Polls.NextKeyIsFresh | interactions/vote.go:141-143 | the key of line n is not yet among the options or the order |
| Polls.ParsedKeysDistinct | interactions/vote.go:141-143 | the order built so far has no duplicate key |
| Polls.ParseOptions | interactions/vote.go:133-144 | the option loop yields exactly the first min(lines, 25) lines, each under `vote/<i>` with its truncated label, the order lists those keys in line order, and no key is repeated |
| Polls.ParseIsUnique | interactions/vote.go:133-144 | the parse relation is a function: a text has only one parse |
| Polls.ParsedDraftWellFormed | interactions/vote.go:107-117 | a parsed option set without ballots satisfies the poll invariant (order and options agree one-to-one, at most 25 options of at most 100 bytes) |
| Polls.ScanDesc | interactions/vote.go:120-131 | a `desc/` field with a parsable length, while the question is empty, sets the question and the end time `start + seconds` |
| Polls.ScanSecondQuestion | interactions/vote.go:120-124 | a `desc/` field arriving while a question is set means an earlier `desc/` field held a non-empty question |
| Polls.ScanBadLength | interactions/vote.go:126-130 | a `desc/` field whose suffix does not parse is a length failure of the modal |
| Polls.ScanUnknown | interactions/vote.go:145-148 | a key that is neither `desc/...` nor `options` is an unknown field of the modal |
| Polls.ScanOptions | interactions/vote.go:132-144 | the `options` field replaces the options by the parse of its text |
| Polls.ScanField | interactions/vote.go:119-148 | one field either rejects the modal for a reason the modal really has, or advances the scan invariant |
| Polls.LastDescIsLast | interactions/vote.go:119-131 | after the loop, the `desc/` field that gave the question is the last one in iteration order |
| Polls.ScanFinishedOptions | interactions/vote.go:132-144 | the finished draft's options are those of the `options` field (none without one) and satisfy the poll invariant |
| Polls.ScanFinishedQuestion | interactions/vote.go:120-131 | the finished draft's question and end time come from the last `desc/` field (empty and 0 without one) |
| Polls.ScanFinishedDraft | interactions/vote.go:107-149 | a fully accepted modal yields a draft that matches its fields |
| Polls.ScanFinished | interactions/vote.go:119-149 | when no field was rejected, the modal has no unknown field, no bad length and no second question, and the draft matches it |
| Polls.VoteModalHandler | interactions/vote.go:106-168 | the modal is rejected iff it has an unknown key, an unparsable length, or a `desc/` field with a non-empty question followed by another `desc/` field, and each rejection reason is one the modal has; otherwise the draft starts now, has no message, channel or ballot, satisfies the poll invariant, takes its options from the `options` field and its question and end time from the last `desc/` field; nothing is stored |
| Polls.StoreCreatedPoll | interactions/vote.go:159-166 | the callback stores the draft under its own guild and the created message's id, with message and channel ids filled in, or changes nothing when the write fails; it keeps every stored poll well-formed and under its own key |
| Polls.SelectorOffersTheOptions | interactions/vote.go:170-187 | on a well-formed poll, the selector's (value, label) set is exactly the options of `order` with their labels |
| Polls.Judge | interactions/vote.go:199-219 | a ballot is refused as closed iff `EndTime <= now`, and accepted iff the poll is open, the interaction is a select with exactly one value, and that value is an option key; an accepted ballot chooses that value |
| Polls.SelectorChoiceIsAccepted | interactions/vote.go:170-219 | choosing any single entry of an open poll's selector passes every guard |
| Polls.CastKeepsWellFormed | interactions/vote.go:221 | recording a ballot for an option keeps the poll invariant |
| Polls.CastChangesOnlyTheVoter | interactions/vote.go:221 | a ballot adds or overwrites only the sender's entry; other voters and every other field are unchanged |
| Polls.LastBallotWins | interactions/vote.go:221 | a second ballot from the same voter replaces the first |
| Polls.CastAllVoters | interactions/vote.go:221 | after a run of ballots the voters are the earlier ones plus the new ones |
| Polls.CastAllKeepsThePoll | interactions/vote.go:221 | a run of ballots changes nothing but the votes |
| Polls.CastAllKeepsWellFormed | interactions/vote.go:216-221 | a run of ballots for existing options keeps the poll invariant |
| Polls.CastAllLatestWins | interactions/vote.go:221 | each voter's recorded choice is their latest ballot |
| Polls.CastAllKeepsUntouched | interactions/vote.go:221 | voters who cast nothing keep their entry (or keep having none) |
| Polls.DistinctVotersAllCount | interactions/vote.go:221 | N ballots from N distinct new voters add exactly N entries |
| Polls.HandleInteractionAsVote | interactions/vote.go:190-229 | a failed read gives "Something very odd happened." with an error; a missing poll gives not-a-vote with no reply and no error; a refused ballot gives the guard's reply, with an error unless the poll is closed; an accepted ballot whose message edit fails or whose write fails gives that error reply; otherwise the poll with the sender's choice recorded is stored under the poll's own key and the reply quotes the option's label; nothing is written in any other case, and stored polls stay well-formed |
| Polls.ComponentVote | interactions/vote.go:57-68 | an error gives the generic reply, a missing poll the not-found reply, a closed poll the closed reply without a write, and a stored ballot the registered reply for the chosen option; the store then holds the poll with the sender's ballot cast, and nothing else changes |
| Polls.DeleteVote | interactions/vote.go:46-54 | outside a guild nothing happens; otherwise the poll under the deleted message is removed, unless the delete fails |
| Access.FirstIndex | commands/access.go:97-98 | the loop stops at the first position holding the role |
| Access.SwapOutRemovesOne | commands/access.go:99-100 | copying the last element over the match and truncating shortens the list by one, removes exactly that element as a multiset, and moves only the last element |
| Access.SwapOutKeepsNoDup | commands/access.go:99-100 | on a duplicate-free list the result is duplicate-free and no longer holds the removed role |
| Access.SwapOutMembers | commands/access.go:99-100 | on a duplicate-free list the result holds every role but the removed one |
| Access.WithRole | commands/access.go:59-60 | a grant keeps the existing roles in order as a prefix, adds the role at most once at the end, and keeps the list duplicate-free |
| Access.WithoutRole | commands/access.go:95-103 | a revoke removes exactly one occurrence of the role (as a multiset), and on a duplicate-free list leaves no occurrence |
| Access.GrantIsIdempotent | commands/access.go:59 | granting twice is granting once, and the role is then held exactly once |
| Access.RevokeOfAbsentRoleIsNoOp | commands/access.go:95 | revoking a role that is not held changes nothing and never creates a record |
| Access.OccursOnce | commands/access.go:59 | a held role occurs exactly once in a duplicate-free list |
| Access.RevokeRemovesMember | commands/access.go:95-103 | a revoke removes the role from a duplicate-free list's members and keeps every other member |
| Access.ReplayMatchesSet | commands/access.go:59-103 | any run of grants and revokes keeps a list duplicate-free, and its roles are those of the same run on a set |
| Access.SubCommandAccessGrant | commands/access.go:35-68 | a malformed request, an unknown group or a bad role is rejected without touching the store; a failed read or write gives the generic error; a role already held is acknowledged without a write; otherwise the list with the role appended is written under the lower-cased group |
| Access.SubCommandAccessRevoke | commands/access.go:71-112 | the same guards as grant; a missing record or a role not held is acknowledged without a write; otherwise the swap-removed list is written |
| Access.SubCommandAccessList | commands/access.go:115-136 | the reply fails iff some group's read fails; otherwise it lists every group in order with its stored roles (none for a missing record) |
| Access.CommandAccess | commands/access.go:17-32 | anything but one subcommand is refused and an unknown name gets the fixed reply, both without a write; "grant" keeps every promise of the grant handler (its replies and the appended list written under the group's key), "revoke" every promise of the revoke handler, and "list" leaves the store alone and replies with exactly the list handler's listing or error |
| Seen.CommandSeen | commands/seen.go:16-39 | no option gives "No user given?!"; the bot's own id gives "I'm right here, buddy!"; otherwise a missing record gives the never-seen reply and a stored one the reply with that timestamp |
| Seen.SeenSelfIgnoresStore | commands/seen.go:17-28 | the no-user and bot-itself replies do not depend on the store |
| Seen.ThresholdMonotone | commands/seen.go:54 | asking for more days never makes the threshold later |
| Seen.BucketsPartitionMembers | commands/seen.go:66-78 | every member is never seen, inactive or active, exactly one of them, so the reported total is at most the member count |
| Seen.InactiveExactly | commands/seen.go:73-76 | a member is reported inactive with time `when` iff its record holds `when` and `when <= now - 86400*days` (inclusive) |
| Seen.NeverSeenExactly | commands/seen.go:71-72 | a member is listed as never seen iff it has no record |
| Seen.InactiveShrinksWithDays | commands/seen.go:54-76 | asking for more days reports a subset of the inactive members |
| Seen.ClassifyStep | commands/seen.go:66-77 | one more member extends the never-seen and inactive lists in member order |
| Seen.CommandInactive | commands/seen.go:41-86 | a bad option fails; without an option the day count is 30, so a readable member list gives a 30-day report and a failed fetch or read fails; zero or fewer days is answered with that count before members are fetched; a failed member fetch or any failed read fails; otherwise the report lists the inactive members and the never-seen members in member order, their total, the day count (30 by default) and the member count |
| Seen.Wrap64 | commands/seen.go:54 | the result is in the signed 64-bit range and congruent to the exact value modulo 2^64 |
| Seen.ThresholdAsWrittenAgreesInRange | commands/seen.go:54 | up to 106751991167300 days the 64-bit threshold equals the exact one |
| Seen.ThresholdOverflows | commands/seen.go:54 | at 213503982334602 days the 64-bit threshold is `now - 61184`, later than the one-day threshold |

## Left out

- The storage package is not part of this model. This covers the
  KeyValueStore engine, its codec, `storage.GetVote`, `Vote.Store` and
  `storage.LastSeen`. A record is a value in a finite map, and each call
  either takes effect or fails as a whole.
- `Vote.String` (the tally text shown in the poll message) is not modelled.
  Its format is in the storage package.
- `Polls.VoteModalHandler`: the poll length is a float in the source:
  `EndTime = StartTime + int64(days*24*3600)`, where `days` comes from
  `strconv.ParseFloat`. The model takes the resulting number of seconds, or
  the parse failure, as the input `seconds`. Float rounding and the
  float-to-int conversion are not captured.
- `Polls.VoteModalHandler`: the modal's fields arrive as a Go map. The model
  takes them as a sequence with distinct keys, in whatever order iteration
  visits them. Which `desc/` field wins, and which rejection is reported
  first, depend on that order.
- `Polls.SelectorChoices`: `makeVoteSelector` lists the options in map
  iteration order, and the model keeps only the set of (value, label) pairs.
  The select menu's placeholder and value limits are not modelled.
- `CommandVote` (the slash command that opens the modal) is not modelled. It
  only formats the length into the `desc/` field id and builds the form.
- Concurrency is not modelled. Each handler reads and writes in separate store
  calls, and two handlers can interleave. The model is sequential and claims
  no lost-update protection.
- Discord API calls are not modelled: the message edit, replies, modal
  rendering, ephemerality and the no-mention flag of some replies. Their
  outcomes are inputs; logging is dropped.
- `Access.Reply.Rendered` and `Seen.Reply.Rendered`: the reply texts follow
  the source's format strings, with snowflakes printed in decimal. No contract
  is stated about the rendered text.
- `Text.Lower`: `strings.ToLower` is modelled on ASCII letters only, with no
  Unicode case mapping.
- `commandGroups` is declared outside the modelled files. It is the parameter
  `groups`.
- `HasAccess` and the command registration in `commands/commands.go` are not
  modelled. They consult only the platform's owner and administrator data.
- `Seen.CommandInactive`: the model computes the threshold with unbounded
  integers, which is the corrected behaviour (see Findings). The loop builds
  the report as data rather than in a `strings.Builder`.

## Findings

| source | as written | input that shows it | evidently intended | confidence | as-written member | corrected member |
|---|---|---|---|---|---|---|
| commands/seen.go:54 | `time.Now().Unix() - (24 * 3600 * days)` in int64; `days` is any positive integer the option accepts | `/inactive days:213503982334602` (below Discord's 2^53 integer limit): the product wraps to 61184, so the threshold is `now - 61184` and a member last seen 17 hours ago is reported inactive, while `days:1` does not report them | the threshold `now - 86400*days` without wrap-around, so that more days never report more members | not executed | Seen.ThresholdOverflows | Seen.ThresholdMonotone |
