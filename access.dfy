/** The /access command of commands/access.go: granting a role access to a
    command group, revoking it, and listing who has access. A group's access
    list is stored under (guild, "access", group) as a sequence of roles. */
module Access {
  import opened Common
  import opened Text
  import opened Store

  /** One option of a subcommand: its String() form, and its SnowflakeValue()
      (None when that fails). */
  datatype Arg = Arg(text: string, snowflake: Option<nat>)

  datatype SubCommand = SubCommand(name: string, options: seq<Arg>)

  /** The replies of the /access handlers. */
  datatype Reply =
    | Confused
    | UnknownSubcommand
    | InvalidStructure
    | NotAGroup(group: string)
    | Failure
    | Granted(role: RoleId, group: string)
    | Denied(role: RoleId, group: string)
    | Listing(lines: seq<(string, seq<RoleId>)>)
  {
    /** The reply's text. */
    function Rendered(): string
    {
      match this
      case Confused => "I'm sorry, what? Something very weird happened."
      case UnknownSubcommand => "Unknown subcommand! Clearly *someone* dropped the ball!"
      case InvalidStructure => "Invalid command structure."
      case NotAGroup(group) => "Sorry, `" + group + "` is not a valid command group."
      case Failure => "An error occured, and has been logged."
      case Granted(role, group) => "<@&" + Decimal(role) + "> now has access to the `" + group + "` command group\n"
      case Denied(role, group) => "<@&" + Decimal(role) + "> is denied access to the `" + group + "` command group\n"
      case Listing(lines) => "Current access is:\n" + ListingText(lines)
    }
  }

  /** One line per group: "Administrators only" for an empty or missing
      list, otherwise the roles in stored order. */
  function ListingText(lines: seq<(string, seq<RoleId>)>): string
  {
    if lines == [] then ""
    else
      var (group, roles) := lines[0];
      "`" + group + "`:" + (if roles == [] then " Administrators only" else Mentions(roles)) + "\n"
      + ListingText(lines[1..])
  }

  function Mentions(roles: seq<RoleId>): string
  {
    if roles == [] then "" else " <@&" + Decimal(roles[0]) + ">" + Mentions(roles[1..])
  }

  // ---------------------------------------------------------------------
  // The access list as a value

  /** The roles a record holds; no record holds none. */
  function Held(record: Option<seq<RoleId>>): seq<RoleId>
  {
    if record.Some? then record.value else []
  }

  /** The record a successful read found. */
  function RecordOf(f: Fetch<seq<RoleId>>): Option<seq<RoleId>>
  {
    if f.Found? then Some(f.value) else None
  }

  /** The roles of a record, as a set. */
  function Members(record: Option<seq<RoleId>>): set<RoleId>
  {
    set x | x in Held(record)
  }

  /** The first position holding `x`. */
  function FirstIndex(s: seq<RoleId>, x: RoleId): (i: nat)
    requires x in s
    ensures i < |s| && s[i] == x
    ensures forall j :: 0 <= j < i ==> s[j] != x
  {
    if s[0] == x then 0 else 1 + FirstIndex(s[1..], x)
  }

  /** `granted[i] = granted[len(granted)-1]; granted = granted[:len(granted)-1]` */
  function SwapOut(s: seq<RoleId>, i: nat): seq<RoleId>
    requires i < |s|
  {
    s[i := s[|s| - 1]][..|s| - 1]
  }

  /** Swap-removal drops exactly the element at i: the last element moves
      into its place, every other element stays where it was. */
  lemma SwapOutRemovesOne(s: seq<RoleId>, i: nat)
    requires i < |s|
    ensures |SwapOut(s, i)| == |s| - 1
    ensures multiset(SwapOut(s, i)) == multiset(s) - multiset{s[i]}
    ensures forall j :: 0 <= j < |s| - 1 && j != i ==> SwapOut(s, i)[j] == s[j]
    ensures i < |s| - 1 ==> SwapOut(s, i)[i] == s[|s| - 1]
  {
    var n := |s|;
    if i == n - 1 {
      assert SwapOut(s, i) == s[..n - 1];
      assert s == s[..n - 1] + [s[n - 1]];
    } else {
      SwapOutMiddle(s, i);
    }
  }

  lemma SwapOutMiddle(s: seq<RoleId>, i: nat)
    requires i < |s| - 1
    ensures multiset(SwapOut(s, i)) == multiset(s) - multiset{s[i]}
  {
    var n := |s|;
    var a, b := s[..i], s[i + 1..n - 1];
    assert SwapOut(s, i) == a + [s[n - 1]] + b;
    assert s == a + [s[i]] + b + [s[n - 1]];
    calc {
      multiset(s);
      multiset(a) + multiset{s[i]} + multiset(b) + multiset{s[n - 1]};
      multiset(a + [s[n - 1]] + b) + multiset{s[i]};
    }
  }

  /** Swap-removal of a role that occurs once leaves a duplicate-free list
      without it. */
  lemma SwapOutKeepsNoDup(s: seq<RoleId>, i: nat)
    requires i < |s| && NoDup(s)
    ensures NoDup(SwapOut(s, i)) && s[i] !in SwapOut(s, i)
  {
  }

  /** The list after a grant: the role is appended when it is absent. */
  function WithRole(roles: seq<RoleId>, role: RoleId): (r: seq<RoleId>)
    ensures role in r
    ensures forall x :: x in r <==> x in roles || x == role
    ensures |roles| <= |r| <= |roles| + 1 && r[..|roles|] == roles
    ensures NoDup(roles) ==> NoDup(r)
  {
    if role in roles then roles else roles + [role]
  }

  /** The list after a revoke: the first occurrence of the role is swapped
      out; a list without the role is left alone. */
  function WithoutRole(roles: seq<RoleId>, role: RoleId): (r: seq<RoleId>)
    ensures multiset(r) == multiset(roles) - multiset{role}
    ensures NoDup(roles) ==> NoDup(r) && role !in r
  {
    if role in roles then
      var i := FirstIndex(roles, role);
      SwapOutRemovesOne(roles, i);
      assert NoDup(roles) ==> NoDup(SwapOut(roles, i)) && role !in SwapOut(roles, i) by {
        if NoDup(roles) {
          SwapOutKeepsNoDup(roles, i);
        }
      }
      SwapOut(roles, i)
    else
      assert multiset(roles)[role] == 0;
      roles
  }

  /** The stored record after a grant: written only when the role is not
      held, and then holding it at the end. */
  function AfterGrant(record: Option<seq<RoleId>>, role: RoleId): Option<seq<RoleId>>
  {
    if role in Held(record) then record else Some(WithRole(Held(record), role))
  }

  /** The stored record after a revoke: written only when it exists and
      holds the role; never created. */
  function AfterRevoke(record: Option<seq<RoleId>>, role: RoleId): Option<seq<RoleId>>
  {
    if record.Some? && role in record.value then Some(WithoutRole(record.value, role)) else record
  }

  /** Granting twice is granting once, and the list then holds the role
      exactly once. */
  lemma GrantIsIdempotent(record: Option<seq<RoleId>>, role: RoleId)
    requires NoDup(Held(record))
    ensures AfterGrant(AfterGrant(record, role), role) == AfterGrant(record, role)
    ensures multiset(Held(AfterGrant(record, role)))[role] == 1
  {
    OccursOnce(Held(AfterGrant(record, role)), role);
  }

  /** Revoking a role that is not held changes nothing, and revoking from a
      missing record does not create one. */
  lemma RevokeOfAbsentRoleIsNoOp(record: Option<seq<RoleId>>, role: RoleId)
    requires role !in Held(record)
    ensures AfterRevoke(record, role) == record
    ensures record.None? ==> AfterRevoke(record, role).None?
  {
  }

  /** In a duplicate-free list, a held role occurs exactly once. */
  lemma {:induction false} OccursOnce(s: seq<RoleId>, x: RoleId)
    requires NoDup(s) && x in s
    ensures multiset(s)[x] == 1
  {
    if s[0] == x {
      assert x !in s[1..];
      assert s == [s[0]] + s[1..];
    } else {
      assert NoDup(s[1..]);
      OccursOnce(s[1..], x);
      assert s == [s[0]] + s[1..];
    }
  }

  datatype AccessOp = Grant(role: RoleId) | Revoke(role: RoleId)

  /** A sequence of grants and revokes applied to one group's record. */
  function Replay(record: Option<seq<RoleId>>, ops: seq<AccessOp>): Option<seq<RoleId>>
    decreases |ops|
  {
    if ops == [] then record
    else
      var next := match ops[0]
        case Grant(role) => AfterGrant(record, role)
        case Revoke(role) => AfterRevoke(record, role);
      Replay(next, ops[1..])
  }

  /** The same sequence applied to a set of roles. */
  function ReplaySet(roles: set<RoleId>, ops: seq<AccessOp>): set<RoleId>
    decreases |ops|
  {
    if ops == [] then roles
    else
      var next := match ops[0]
        case Grant(role) => roles + {role}
        case Revoke(role) => roles - {role};
      ReplaySet(next, ops[1..])
  }

  /** Any run of grants and revokes on a duplicate-free list keeps it
      duplicate-free, and its roles are those of the same run on a set. */
  lemma {:induction false} ReplayMatchesSet(record: Option<seq<RoleId>>, ops: seq<AccessOp>)
    requires NoDup(Held(record))
    ensures NoDup(Held(Replay(record, ops)))
    ensures Members(Replay(record, ops)) == ReplaySet(Members(record), ops)
    decreases |ops|
  {
    if ops != [] {
      var held := Held(record);
      match ops[0]
      case Grant(role) =>
        var next := AfterGrant(record, role);
        assert Members(next) == Members(record) + {role};
        ReplayMatchesSet(next, ops[1..]);
      case Revoke(role) =>
        var next := AfterRevoke(record, role);
        RevokeRemovesMember(record, role);
        ReplayMatchesSet(next, ops[1..]);
    }
  }

  /** A revoke on a duplicate-free list removes the role from its members
      and nothing else. */
  lemma RevokeRemovesMember(record: Option<seq<RoleId>>, role: RoleId)
    requires NoDup(Held(record))
    ensures NoDup(Held(AfterRevoke(record, role)))
    ensures Members(AfterRevoke(record, role)) == Members(record) - {role}
  {
    if record.Some? && role in record.value {
      SwapOutMembers(record.value, FirstIndex(record.value, role));
    }
  }

  /** Swap-removal from a duplicate-free list removes that one element's
      value and keeps every other. */
  lemma SwapOutMembers(s: seq<RoleId>, i: nat)
    requires i < |s| && NoDup(s)
    ensures forall x :: x in SwapOut(s, i) <==> x in s && x != s[i]
  {
    SwapOutRemovesOne(s, i);
    SwapOutKeepsNoDup(s, i);
    var r, n := SwapOut(s, i), |s|;
    forall x | x in s && x != s[i]
      ensures x in r
    {
      var k :| 0 <= k < n && s[k] == x;
      if k < n - 1 {
        assert r[k] == x;
      } else {
        assert r[i] == x;
      }
    }
    forall x | x in r
      ensures x in s
    {
      var j :| 0 <= j < |r| && r[j] == x;
      if j == i {
        assert x == s[n - 1];
      } else {
        assert x == s[j];
      }
    }
  }


  // ---------------------------------------------------------------------
  // The handlers

  /** The group a grant or revoke names, lower-cased. */
  function GroupOf(options: seq<Arg>): string
    requires |options| == 2
  {
    Lower(options[0].text)
  }

  /** A well-formed grant or revoke: two options, a known group, a role. */
  predicate IsRequest(options: seq<Arg>, groups: seq<string>)
  {
    |options| == 2 && GroupOf(options) in groups && options[1].snowflake.Some?
  }

  /** What a grant (`grant`) or revoke request promises: the reply for each
      malformed request, and for a well-formed one the reply and the role list
      written back under the group's key, computed from the list read before. */
  twostate predicate UpdateOutcome(kvs: KeyValueStore, guild: GuildId, groups: seq<string>, options: seq<Arg>,
                                   grant: bool, r: Reply)
    reads kvs
  {
    && kvs.unreadable == old(kvs.unreadable) && kvs.writable == old(kvs.writable)
    && (|options| != 2 ==> r == InvalidStructure)
    && (|options| == 2 && GroupOf(options) !in groups ==> r == NotAGroup(GroupOf(options)))
    && (|options| == 2 && GroupOf(options) in groups && options[1].snowflake.None? ==> r == Failure)
    && (!IsRequest(options, groups) ==> kvs.entries == old(kvs.entries))
    && (IsRequest(options, groups) ==>
          var key, role := AccessKey(guild, GroupOf(options)), options[1].snowflake.value;
          var before := old(kvs.RolesAt(key));
          if before.Failed? then r == Failure && kvs.entries == old(kvs.entries)
          else
            var record := RecordOf(before);
            var after := if grant then AfterGrant(record, role) else AfterRevoke(record, role);
            var done := if grant then Granted(role, GroupOf(options)) else Denied(role, GroupOf(options));
            var writes := after != record;
            var ok := !writes || old(kvs.writable);
            && r == (if ok then done else Failure)
            && kvs.entries == if writes && ok
                              then old(kvs.entries)[key := RoleList(Held(after))]
                              else old(kvs.entries))
  }

  /** What a list request promises: the generic error exactly when some group's
      read fails, otherwise one line per group, in `groups` order, holding the
      roles stored for it. */
  predicate ListOutcome(kvs: KeyValueStore, guild: GuildId, groups: seq<string>, r: Reply)
    reads kvs
  {
    && (r.Failure? || r.Listing?)
    && (r.Failure? <==> exists i :: 0 <= i < |groups| && kvs.RolesAt(AccessKey(guild, groups[i])).Failed?)
    && (r.Listing? ==>
          && |r.lines| == |groups|
          && forall i :: 0 <= i < |groups| ==>
               r.lines[i] == (groups[i], Held(RecordOf(kvs.RolesAt(AccessKey(guild, groups[i]))))))
  }

  /** SubCommandAccessGrant: appends the role to the group's list unless it is already there. */
  method SubCommandAccessGrant(kvs: KeyValueStore, guild: GuildId, groups: seq<string>, options: seq<Arg>)
    returns (r: Reply)
    modifies kvs
    ensures UpdateOutcome(kvs, guild, groups, options, true, r)
  {
    if |options| != 2 {
      return InvalidStructure;
    }
    var group := Lower(options[0].text);
    if group !in groups {
      return NotAGroup(group);
    }
    if options[1].snowflake.None? {
      return Failure;
    }
    var role := options[1].snowflake.value;
    var granted: seq<RoleId> := [];
    var fetched := kvs.RolesAt(AccessKey(guild, group));
    if fetched.Failed? {
      return Failure;
    }
    var found := fetched.Found?;
    if found {
      granted := fetched.value;
    }
    if !found || role !in granted {
      granted := granted + [role];
      var ok := kvs.Set(AccessKey(guild, group), RoleList(granted));
      if !ok {
        return Failure;
      }
    }
    return Granted(role, group);
  }

  /** SubCommandAccessRevoke: swaps the role out of the group's list with the last entry. */
  method SubCommandAccessRevoke(kvs: KeyValueStore, guild: GuildId, groups: seq<string>, options: seq<Arg>)
    returns (r: Reply)
    modifies kvs
    ensures UpdateOutcome(kvs, guild, groups, options, false, r)
  {
    if |options| != 2 {
      return InvalidStructure;
    }
    var group := Lower(options[0].text);
    if group !in groups {
      return NotAGroup(group);
    }
    if options[1].snowflake.None? {
      return Failure;
    }
    var role := options[1].snowflake.value;
    var granted: seq<RoleId> := [];
    var fetched := kvs.RolesAt(AccessKey(guild, group));
    if fetched.Failed? {
      return Failure;
    }
    var found := fetched.Found?;
    if found {
      granted := fetched.value;
    }
    if found && role in granted {
      ghost var original := granted;
      var idx := 0;
      while idx < |granted|
        invariant 0 <= idx <= |granted|
        invariant granted == original
        invariant forall j :: 0 <= j < idx ==> granted[j] != role
      {
        if granted[idx] == role {
          granted := granted[idx := granted[|granted| - 1]];
          granted := granted[..|granted| - 1];
          break;
        }
        idx := idx + 1;
      }
      assert granted == WithoutRole(original, role);
      var ok := kvs.Set(AccessKey(guild, group), RoleList(granted));
      if !ok {
        return Failure;
      }
    }
    return Denied(role, group);
  }

  /** SubCommandAccessList: reads every group in `groups` order; any failed
      read gives the generic error instead of a listing. */
  method SubCommandAccessList(kvs: KeyValueStore, guild: GuildId, groups: seq<string>) returns (r: Reply)
    ensures ListOutcome(kvs, guild, groups, r)
  {
    var lines: seq<(string, seq<RoleId>)> := [];
    for i := 0 to |groups|
      invariant |lines| == i
      invariant forall j :: 0 <= j < i ==> !kvs.RolesAt(AccessKey(guild, groups[j])).Failed?
      invariant forall j :: 0 <= j < i ==>
                  lines[j] == (groups[j], Held(RecordOf(kvs.RolesAt(AccessKey(guild, groups[j])))))
    {
      var group := groups[i];
      var granted: seq<RoleId> := [];
      var fetched := kvs.RolesAt(AccessKey(guild, group));
      if fetched.Failed? {
        return Failure;
      }
      if fetched.Found? {
        granted := fetched.value;
      }
      lines := lines + [(group, granted)];
    }
    return Listing(lines);
  }

  /** CommandAccess: exactly one subcommand, dispatched on its name. */
  method CommandAccess(kvs: KeyValueStore, guild: GuildId, groups: seq<string>, subcommands: seq<SubCommand>)
    returns (r: Reply)
    modifies kvs
    ensures kvs.unreadable == old(kvs.unreadable) && kvs.writable == old(kvs.writable)
    ensures |subcommands| != 1 ==> r == Confused
    ensures |subcommands| == 1 && subcommands[0].name !in {"grant", "revoke", "list"} ==> r == UnknownSubcommand
    ensures kvs.entries != old(kvs.entries) ==>
              |subcommands| == 1 && subcommands[0].name in {"grant", "revoke"} && IsRequest(subcommands[0].options, groups)
    ensures |subcommands| == 1 && subcommands[0].name == "grant" ==>
              UpdateOutcome(kvs, guild, groups, subcommands[0].options, true, r)
    ensures |subcommands| == 1 && subcommands[0].name == "revoke" ==>
              UpdateOutcome(kvs, guild, groups, subcommands[0].options, false, r)
    ensures |subcommands| == 1 && subcommands[0].name == "list" ==>
              kvs.entries == old(kvs.entries) && ListOutcome(kvs, guild, groups, r)
  {
    if |subcommands| != 1 {
      return Confused;
    }
    var sub := subcommands[0];
    if sub.name == "grant" {
      r := SubCommandAccessGrant(kvs, guild, groups, sub.options);
    } else if sub.name == "revoke" {
      r := SubCommandAccessRevoke(kvs, guild, groups, sub.options);
    } else if sub.name == "list" {
      r := SubCommandAccessList(kvs, guild, groups);
    } else {
      r := UnknownSubcommand;
    }
  }
}
