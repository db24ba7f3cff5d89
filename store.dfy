/** The per-guild key-value store the handlers share, and the records they
    keep in it. The store's own codec and engine are not part of this model:
    a record is a value in a finite map from (guild, category, key), and each
    read or write either takes effect or fails as a whole. */
module Store {
  import opened Common

  /** Discord snowflakes. 0 stands for the platform's null id
      (discord.NullGuildID, discord.NullMessageID, discord.NullChannelID). */
  type GuildId = nat
  type UserId = nat
  type RoleId = nat
  type MessageId = nat
  type ChannelId = nat

  /** The last part of a store key: a command-group name or a snowflake. */
  datatype Name = Label(text: string) | Snowflake(id: nat)

  datatype Key = Key(guild: GuildId, category: string, name: Name)

  function VoteKey(guild: GuildId, message: MessageId): Key
  {
    Key(guild, "votes", Snowflake(message))
  }

  function AccessKey(guild: GuildId, group: string): Key
  {
    Key(guild, "access", Label(group))
  }

  function SeenKey(guild: GuildId, user: UserId): Key
  {
    Key(guild, "seen", Snowflake(user))
  }

  /** storage.Vote. Times are Unix seconds; `options` maps an option key to
      its label, `order` lists the option keys in display order, and `votes`
      maps each voter to the option key of their ballot. */
  datatype Vote = Vote(
    startTime: int,
    endTime: int,
    guild: GuildId,
    message: MessageId,
    channel: ChannelId,
    question: string,
    options: map<string, string>,
    order: seq<string>,
    votes: map<UserId, string>)

  /** What a key can hold: an access list, a last-seen time or a poll. */
  datatype Value = RoleList(roles: seq<RoleId>) | Timestamp(unix: int) | Poll(vote: Vote)

  /** storage.KeyValueStore. `entries` is what is stored; `unreadable` holds
      the keys whose reads fail and `writable` says whether writes succeed,
      so that the failure of every store call is an explicit input. */
  class KeyValueStore {
    var entries: map<Key, Value>
    var unreadable: set<Key>
    var writable: bool

    constructor (entries: map<Key, Value>, unreadable: set<Key>, writable: bool)
      ensures this.entries == entries && this.unreadable == unreadable && this.writable == writable
    {
      this.entries := entries;
      this.unreadable := unreadable;
      this.writable := writable;
    }

    /** storage.GetVote: a key holding something other than a poll does not
        decode and fails like an unreadable one. */
    function VoteAt(k: Key): Fetch<Vote>
      reads this
    {
      if k in unreadable then Failed
      else if k !in entries then Absent
      else if entries[k].Poll? then Found(entries[k].vote)
      else Failed
    }

    /** GetObject into a []discord.RoleID. */
    function RolesAt(k: Key): Fetch<seq<RoleId>>
      reads this
    {
      if k in unreadable then Failed
      else if k !in entries then Absent
      else if entries[k].RoleList? then Found(entries[k].roles)
      else Failed
    }

    /** storage.LastSeen. */
    function SeenAt(k: Key): Fetch<int>
      reads this
    {
      if k in unreadable then Failed
      else if k !in entries then Absent
      else if entries[k].Timestamp? then Found(entries[k].unix)
      else Failed
    }

    /** Set: replaces whatever is stored under `k`, or fails and changes
        nothing. */
    method Set(k: Key, v: Value) returns (ok: bool)
      modifies this
      ensures ok == old(writable)
      ensures entries == if ok then old(entries)[k := v] else old(entries)
      ensures unreadable == old(unreadable) && writable == old(writable)
    {
      ok := writable;
      if ok {
        entries := entries[k := v];
      }
    }

    /** Delete: removes the record if there is one (an absent key is not an
        error), or fails and changes nothing. */
    method Delete(k: Key) returns (ok: bool)
      modifies this
      ensures ok == old(writable)
      ensures entries == if ok then old(entries) - {k} else old(entries)
      ensures unreadable == old(unreadable) && writable == old(writable)
    {
      ok := writable;
      if ok {
        entries := entries - {k};
      }
    }
  }
}
