/** The /seen and /inactive commands of commands/seen.go. A user's last
    activity is a timestamp (seconds since the epoch) stored under
    (guild, "seen", user). */
module Seen {
  import opened Common
  import opened Text
  import opened Store

  /** The replies of /seen and /inactive. */
  datatype Reply =
    | NoUserGiven
    | Failure
    | RightHere
    | NeverSeen(user: UserId)
    | LastSaw(user: UserId, when: int)
    | Everyone(days: int)
    | Report(inactive: seq<(UserId, int)>, total: nat, days: int, memberCount: nat, never: seq<UserId>)
  {
    /** The reply's text. */
    function Rendered(): string
    {
      match this
      case NoUserGiven => "No user given?!"
      case Failure => "An error occured, and has been logged."
      case RightHere => "I'm right here, buddy!"
      case NeverSeen(user) => "Sorry, I've never seen <@" + Decimal(user) + "> say anything at all!"
      case LastSaw(user, when) => "I last saw <@" + Decimal(user) + "> <t:" + SignedDecimal(when) + ":R>"
      case Everyone(days) => "Everyone. Everyone has been inactive for " + SignedDecimal(days) + " days."
      case Report(inactive, total, days, memberCount, never) =>
        InactiveLines(inactive)
        + Decimal(total) + " inactive in the last " + SignedDecimal(days) + " days, out of "
        + Decimal(memberCount) + " members.\n"
        + (if never == [] then "" else "Never seen active by me: " + NeverList(never))
    }
  }

  function InactiveLines(inactive: seq<(UserId, int)>): string
  {
    if inactive == [] then ""
    else "<@" + Decimal(inactive[0].0) + "> <t:" + SignedDecimal(inactive[0].1) + ":R>\n" + InactiveLines(inactive[1..])
  }

  function NeverList(never: seq<UserId>): string
  {
    if never == [] then "" else "<@" + Decimal(never[0]) + "> " + NeverList(never[1..])
  }

  /** storage.LastSeen: the stored timestamp of a user in a guild. */
  function LastSeen(kvs: KeyValueStore, guild: GuildId, user: UserId): Fetch<int>
    reads kvs
  {
    kvs.SeenAt(SeenKey(guild, user))
  }

  // ---------------------------------------------------------------------
  // /seen

  /** CommandSeen. `options` holds each option's SnowflakeValue (None when
      it fails) and `me` the bot's own user (None when the lookup fails). */
  function CommandSeen(kvs: KeyValueStore, guild: GuildId, options: seq<Option<nat>>, me: Option<UserId>): (r: Reply)
    reads kvs
    ensures r == NoUserGiven <==> |options| == 0
    ensures r == RightHere <==> |options| > 0 && options[0].Some? && me == Some(options[0].value)
    ensures r.NeverSeen? <==>
              && |options| > 0 && options[0].Some? && me.Some? && me.value != options[0].value
              && LastSeen(kvs, guild, options[0].value).Absent?
    ensures r.LastSaw? <==>
              && |options| > 0 && options[0].Some? && me.Some? && me.value != options[0].value
              && LastSeen(kvs, guild, options[0].value).Found?
    ensures r.NeverSeen? ==> r.user == options[0].value
    ensures r.LastSaw? ==> r.user == options[0].value && LastSeen(kvs, guild, r.user) == Found(r.when)
    ensures r.NoUserGiven? || r.Failure? || r.RightHere? || r.NeverSeen? || r.LastSaw?
  {
    if |options| > 0 then
      if options[0].None? then Failure
      else
        var user := options[0].value;
        if me.None? then Failure
        else if me.value == user then RightHere
        else
          match LastSeen(kvs, guild, user)
          case Failed => Failure
          case Absent => NeverSeen(user)
          case Found(when) => LastSaw(user, when)
    else NoUserGiven
  }

  /** Asking about the bot itself, or about nobody, is answered without
      looking at the store: any two stores give the same reply. */
  lemma SeenSelfIgnoresStore(kvs1: KeyValueStore, kvs2: KeyValueStore, guild: GuildId, options: seq<Option<nat>>, me: Option<UserId>)
    requires |options| == 0 || (options[0].Some? && me == Some(options[0].value))
    ensures CommandSeen(kvs1, guild, options, me) == CommandSeen(kvs2, guild, options, me)
  {
  }

  // ---------------------------------------------------------------------
  // /inactive, specified on values

  /** The day count /inactive works with: the first option, or 30 days. */
  function RequestedDays(options: seq<Option<int>>): Option<int>
  {
    if |options| > 0 then options[0] else Some(30)
  }

  /** The latest moment of activity that still counts as inactive. */
  function Threshold(now: int, days: int): (atLeast: int)
  {
    now - 24 * 3600 * days
  }

  /** Asking for more days never makes the threshold later. */
  lemma ThresholdMonotone(now: int, fewer: int, more: int)
    requires fewer <= more
    ensures Threshold(now, more) <= Threshold(now, fewer)
  {
  }

  /** Every member's record can be read. */
  predicate AllReadable(kvs: KeyValueStore, guild: GuildId, members: seq<UserId>)
    reads kvs
  {
    forall i :: 0 <= i < |members| ==> !LastSeen(kvs, guild, members[i]).Failed?
  }

  /** The members without a record, in member order. */
  function NeverSeenAmong(kvs: KeyValueStore, guild: GuildId, members: seq<UserId>): seq<UserId>
    reads kvs
  {
    if members == [] then []
    else
      var last := members[|members| - 1];
      NeverSeenAmong(kvs, guild, members[..|members| - 1])
      + (if LastSeen(kvs, guild, last).Absent? then [last] else [])
  }

  /** The members seen no later than `atLeast`, with when they were seen,
      in member order. */
  function InactiveAmong(kvs: KeyValueStore, guild: GuildId, atLeast: int, members: seq<UserId>): seq<(UserId, int)>
    reads kvs
  {
    if members == [] then []
    else
      var last := members[|members| - 1];
      var seen := LastSeen(kvs, guild, last);
      InactiveAmong(kvs, guild, atLeast, members[..|members| - 1])
      + (if seen.Found? && seen.value <= atLeast then [(last, seen.value)] else [])
  }

  /** The members seen after `atLeast`. */
  function ActiveAmong(kvs: KeyValueStore, guild: GuildId, atLeast: int, members: seq<UserId>): seq<UserId>
    reads kvs
  {
    if members == [] then []
    else
      var last := members[|members| - 1];
      var seen := LastSeen(kvs, guild, last);
      ActiveAmong(kvs, guild, atLeast, members[..|members| - 1])
      + (if seen.Found? && atLeast < seen.value then [last] else [])
  }

  /** Every readable member lands in exactly one of the three buckets, so
      the reported total never exceeds the member count. */
  lemma {:induction false} BucketsPartitionMembers(kvs: KeyValueStore, guild: GuildId, atLeast: int, members: seq<UserId>)
    requires AllReadable(kvs, guild, members)
    ensures |NeverSeenAmong(kvs, guild, members)| + |InactiveAmong(kvs, guild, atLeast, members)|
            + |ActiveAmong(kvs, guild, atLeast, members)| == |members|
    ensures |NeverSeenAmong(kvs, guild, members)| + |InactiveAmong(kvs, guild, atLeast, members)| <= |members|
  {
    if members != [] {
      var front := members[..|members| - 1];
      assert AllReadable(kvs, guild, front) by {
        forall i | 0 <= i < |front|
          ensures !LastSeen(kvs, guild, front[i]).Failed?
        {
          assert front[i] == members[i];
        }
      }
      BucketsPartitionMembers(kvs, guild, atLeast, front);
      assert !LastSeen(kvs, guild, members[|members| - 1]).Failed?;
    }
  }

  /** A member is reported inactive, with time `when`, exactly when its
      record holds `when` and `when <= atLeast`: the boundary is inclusive. */
  lemma {:induction false} InactiveExactly(kvs: KeyValueStore, guild: GuildId, atLeast: int, members: seq<UserId>, user: UserId, when: int)
    ensures (user, when) in InactiveAmong(kvs, guild, atLeast, members) <==>
            user in members && LastSeen(kvs, guild, user) == Found(when) && when <= atLeast
  {
    if members != [] {
      var front := members[..|members| - 1];
      InactiveExactly(kvs, guild, atLeast, front, user, when);
      assert members == front + [members[|members| - 1]];
    }
  }

  /** A member is listed as never seen exactly when it has no record. */
  lemma {:induction false} NeverSeenExactly(kvs: KeyValueStore, guild: GuildId, members: seq<UserId>, user: UserId)
    ensures user in NeverSeenAmong(kvs, guild, members) <==> user in members && LastSeen(kvs, guild, user).Absent?
  {
    if members != [] {
      var front := members[..|members| - 1];
      NeverSeenExactly(kvs, guild, front, user);
      assert members == front + [members[|members| - 1]];
    }
  }

  /** A longer quiet period reports a subset of the inactive members. */
  lemma InactiveShrinksWithDays(kvs: KeyValueStore, guild: GuildId, now: int, fewer: int, more: int, members: seq<UserId>)
    requires fewer <= more
    ensures forall u, w :: (u, w) in InactiveAmong(kvs, guild, Threshold(now, more), members) ==>
                           (u, w) in InactiveAmong(kvs, guild, Threshold(now, fewer), members)
  {
  }

  // ---------------------------------------------------------------------
  // /inactive

  /** The state of the classification loop after the first `n` members. */
  predicate ClassifiedUpTo(kvs: KeyValueStore, guild: GuildId, atLeast: int, members: seq<UserId>, n: nat,
                           inactive: seq<(UserId, int)>, never: seq<UserId>)
    reads kvs
  {
    && n <= |members|
    && AllReadable(kvs, guild, members[..n])
    && inactive == InactiveAmong(kvs, guild, atLeast, members[..n])
    && never == NeverSeenAmong(kvs, guild, members[..n])
  }

  /** CommandInactive. `options` holds each option's IntValue (None when it
      fails), `now` the current Unix time and `members` the guild's member
      list (None when fetching it fails). */
  method CommandInactive(kvs: KeyValueStore, guild: GuildId, options: seq<Option<int>>, now: int, members: Option<seq<UserId>>)
    returns (r: Reply)
    ensures r.Failure? || r.Everyone? || r.Report?
    ensures |options| > 0 && options[0].None? ==> r == Failure
    ensures |options| > 0 && options[0].Some? && options[0].value <= 0 ==> r == Everyone(options[0].value)
    ensures |options| == 0 && members.Some? && AllReadable(kvs, guild, members.value) ==> r.Report? && r.days == 30
    ensures |options| == 0 && (members.None? || !AllReadable(kvs, guild, members.value)) ==> r == Failure
    ensures RequestedDays(options).Some? && RequestedDays(options).value <= 0 ==> r == Everyone(RequestedDays(options).value)
    ensures RequestedDays(options).Some? && RequestedDays(options).value > 0 ==>
              var days := RequestedDays(options).value;
              if members.None? || !AllReadable(kvs, guild, members.value) then r == Failure
              else
                var atLeast := Threshold(now, days);
                var inactive := InactiveAmong(kvs, guild, atLeast, members.value);
                var never := NeverSeenAmong(kvs, guild, members.value);
                r == Report(inactive, |inactive| + |never|, days, |members.value|, never)
  {
    var days := 30;
    if |options| > 0 {
      if options[0].None? {
        return Failure;
      }
      var d := options[0].value;
      if d <= 0 {
        return Everyone(d);
      }
      days := d;
    }
    var atLeast := now - 24 * 3600 * days;
    if members.None? {
      return Failure;
    }
    var list := members.value;
    var never: seq<UserId> := [];
    var inactive: seq<(UserId, int)> := [];
    for i := 0 to |list|
      invariant ClassifiedUpTo(kvs, guild, atLeast, list, i, inactive, never)
    {
      var member := list[i];
      var seen := LastSeen(kvs, guild, member);
      ClassifyStep(kvs, guild, atLeast, list, i);
      if seen.Failed? {
        NotAllReadable(kvs, guild, list, i);
        return Failure;
      } else if seen.Absent? {
        never := never + [member];
      } else if seen.value <= atLeast {
        inactive := inactive + [(member, seen.value)];
      }
    }
    assert list[..|list|] == list;
    return Report(inactive, |inactive| + |never|, days, |list|, never);
  }

  /** The buckets of the first n+1 members extend those of the first n. */
  lemma ClassifyStep(kvs: KeyValueStore, guild: GuildId, atLeast: int, members: seq<UserId>, n: nat)
    requires n < |members|
    ensures var seen := LastSeen(kvs, guild, members[n]);
            && InactiveAmong(kvs, guild, atLeast, members[..n + 1])
               == InactiveAmong(kvs, guild, atLeast, members[..n])
                  + (if seen.Found? && seen.value <= atLeast then [(members[n], seen.value)] else [])
            && NeverSeenAmong(kvs, guild, members[..n + 1])
               == NeverSeenAmong(kvs, guild, members[..n]) + (if seen.Absent? then [members[n]] else [])
            && (AllReadable(kvs, guild, members[..n]) && !seen.Failed? ==> AllReadable(kvs, guild, members[..n + 1]))
  {
    assert members[..n + 1][..n] == members[..n];
  }

  lemma NotAllReadable(kvs: KeyValueStore, guild: GuildId, members: seq<UserId>, n: nat)
    requires n < |members| && LastSeen(kvs, guild, members[n]).Failed?
    ensures !AllReadable(kvs, guild, members)
  {
  }

  // ---------------------------------------------------------------------
  // The threshold as the source computes it, in 64-bit arithmetic

  /** Two's-complement wrap-around of a signed 64-bit result. */
  function Wrap64(x: int): (w: int)
    ensures -0x8000_0000_0000_0000 <= w < 0x8000_0000_0000_0000
    ensures (w - x) % 0x1_0000_0000_0000_0000 == 0
  {
    (x + 0x8000_0000_0000_0000) % 0x1_0000_0000_0000_0000 - 0x8000_0000_0000_0000
  }

  /** `time.Now().Unix() - (24 * 3600 * days)` with int64 overflow. */
  function ThresholdAsWritten(now: int, days: int): int
  {
    Wrap64(now - Wrap64(24 * 3600 * days))
  }

  /** For day counts up to 106751991167300 the 64-bit threshold is the
      intended one. */
  lemma ThresholdAsWrittenAgreesInRange(now: int, days: int)
    requires 0 < days <= 106751991167300
    requires 0 <= now < 0x1_0000_0000
    ensures ThresholdAsWritten(now, days) == Threshold(now, days)
  {
  }

  /** A day count Discord accepts (below 2^53) wraps the product around to
      61184 seconds, so asking for 213503982334602 days of quiet reports
      someone last seen 17 hours ago as inactive, while one day of quiet
      does not. */
  lemma ThresholdOverflows(now: int)
    requires 0 <= now < 0x1_0000_0000
    ensures ThresholdAsWritten(now, 213503982334602) == now - 61184
    ensures ThresholdAsWritten(now, 1) < ThresholdAsWritten(now, 213503982334602)
    ensures Threshold(now, 213503982334602) < Threshold(now, 1)
  {
  }
}
