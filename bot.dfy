/** The bot's state for its one guild: the configuration collection, the
    period of the scan loop, the live roster and the messages posted to log
    channels, with the scan, the listing command and the four set commands
    as methods. */
module VanityBot {
  import opened Vanity
  import opened Config
  import opened Scanner

  /** Delivering two batches of notices one after the other delivers them
      as one batch. */
  lemma DeliveredTwice(log: seq<Notice>, a: seq<Notice>, b: seq<Notice>, canSend: bool)
    ensures log + (if canSend then a else []) + (if canSend then b else []) == log + (if canSend then a + b else [])
  {
  }

  class Bot {
    /** The guild the bot is deployed for. */
    const guildId: GuildId
    /** The configuration collection, one record per guild id. */
    var store: map<GuildId, GuildConfig>
    /** Current period of the scan loop, in seconds. */
    var interval: int
    /** The guild's members, whose role sets the scan changes in place. */
    const roster: array<Member>
    /** Ids of the roles and channels that exist in the guild. */
    var roles: set<RoleId>
    var channels: set<ChannelId>
    /** Every notice delivered to a log channel so far. */
    var posted: seq<Notice>

    /** Start-up: the collection holds whatever was stored before (it
        survives restarts), while the loop starts at the decorator's period
        until the first cycle reads the record. */
    constructor (id: GuildId, stored: map<GuildId, GuildConfig>, members: seq<Member>,
                 liveRoles: set<RoleId>, liveChannels: set<ChannelId>)
      ensures guildId == id && roster[..] == members && roles == liveRoles && channels == liveChannels
      ensures store == stored && interval == DefaultInterval && posted == []
      ensures fresh(roster)
    {
      guildId := id;
      roster := new Member[|members|](i requires 0 <= i < |members| => members[i]);
      store := stored;
      interval := DefaultInterval;
      roles := liveRoles;
      channels := liveChannels;
      posted := [];
    }

    /** The guild as the platform shows it now. */
    ghost function Snapshot(): Guild
      reads this, roster
    {
      Guild(roster[..], roles, channels)
    }

    /** The scan loop's body. `present` says whether the platform can find
        the guild at this moment; `canSend` says whether the log channel
        accepts messages; a refused send is dropped and the grant stands. */
    method ScanStatuses(present: bool, canSend: bool) returns (attempted: seq<Notice>)
      modifies this`interval, this`posted, roster
      ensures var c := RunCycle(Find(store, guildId), present, old(Snapshot()));
        && roster[..] == c.members
        && attempted == c.notices
        && interval == (if c.interval.Some? then c.interval.value else old(interval))
      ensures posted == old(posted) + (if canSend then attempted else [])
    {
      attempted := [];
      if guildId !in store {
        return;
      }
      var config := store[guildId];
      interval := IntervalOf(config);
      if !present {
        return;
      }
      var role := Resolve(config.roleId, roles);
      var channel := Resolve(config.logChannel, channels);
      var logText := LogTextOf(config);
      attempted := ReconcileRoster(role, channel, logText, canSend);
    }

    /** The loop over the roster inside the scan, with the role, channel and
        log text the cycle resolved. */
    method ReconcileRoster(role: Option<RoleId>, channel: Option<ChannelId>, logText: string, canSend: bool)
      returns (attempted: seq<Notice>)
      modifies this`posted, roster
      ensures var p := Reconcile(old(roster[..]), role, channel, logText);
              roster[..] == p.members && attempted == p.notices
      ensures posted == old(posted) + (if canSend then attempted else [])
    {
      attempted := [];
      ghost var init := roster[..];
      for i := 0 to roster.Length
        invariant forall k :: 0 <= k < i ==> roster[k] == Apply(init[k], Decide(init[k], role))
        invariant forall k :: i <= k < roster.Length ==> roster[k] == init[k]
        invariant attempted == PassUpTo(init, i, role, channel, logText).notices
        invariant posted == old(posted) + (if canSend then attempted else [])
      {
        var notice := ScanMember(i, role, channel, logText, canSend);
        DeliveredTwice(old(posted), attempted, notice, canSend);
        attempted := attempted + notice;
      }
      ReconcileMembers(init, roster[..], role, channel, logText);
    }

    /** One iteration of that loop: the member at position `i` after the
        bot check, the vanity test and the grant or revoke, and the notice
        posted on a grant. */
    method ScanMember(i: int, role: Option<RoleId>, channel: Option<ChannelId>, logText: string, canSend: bool)
      returns (notice: seq<Notice>)
      requires 0 <= i < roster.Length
      modifies this`posted, roster
      ensures var m := old(roster[i]);
              var d := Decide(m, role);
              roster[i] == Apply(m, d) && notice == NoticeOf(m, d, channel, logText)
      ensures forall k :: 0 <= k < roster.Length && k != i ==> roster[k] == old(roster[k])
      ensures posted == old(posted) + (if canSend then notice else [])
    {
      notice := [];
      var m := roster[i];
      if m.bot {
        return;
      }
      var hasVanity := DetectVanity(m.activities);
      if Active(m.status) {
        if hasVanity {
          if role.Some? && role.value !in m.roles {
            roster[i] := m.(roles := m.roles + {role.value});
            if channel.Some? {
              notice := [Notice(channel.value, m.mention + " " + logText)];
              if canSend {
                posted := posted + notice;
              }
            }
          }
        } else {
          if role.Some? && role.value in m.roles {
            roster[i] := m.(roles := m.roles - {role.value});
          }
        }
      }
    }

    /** The listing command: the mentions of the members who are around
        and show the vanity, bots included, in roster order. When the guild
        cannot be found the command fails (`None`) instead of replying. */
    method VanityMembers(present: bool) returns (listing: Option<seq<string>>)
      ensures listing.Some? <==> present
      ensures listing.Some? ==> listing.value == Mentions(Qualifying(roster[..]))
    {
      if !present {
        return None;
      }
      var matching := [];
      for i := 0 to roster.Length
        invariant matching == Mentions(Qualifying(roster[..i]))
      {
        var member := roster[i];
        assert roster[..i + 1][..i] == roster[..i] && roster[..i + 1][i] == member;
        if Active(member.status) {
          var found := DetectVanity(member.activities);
          if found {
            matching := matching + [member.mention];
          }
        }
        assert Mentions(Qualifying(roster[..i + 1])) == matching;
      }
      assert roster[..] == roster[..roster.Length];
      listing := Some(matching);
    }

    /** `/setscanner`: store the period and switch the loop to it. */
    method SetScanner(seconds: int)
      modifies this`store, this`interval
      ensures store == Upsert(old(store), guildId, Interval(seconds))
      ensures interval == seconds
    {
      store := Upsert(store, guildId, Interval(seconds));
      interval := seconds;
    }

    /** `/setrole`: store the id of the role to manage. */
    method SetRole(role: RoleId)
      modifies this`store
      ensures store == Upsert(old(store), guildId, Role(role))
    {
      store := Upsert(store, guildId, Role(role));
    }

    /** `/setlog`: store the id of the log channel. */
    method SetLog(channel: ChannelId)
      modifies this`store
      ensures store == Upsert(old(store), guildId, LogChannel(channel))
    {
      store := Upsert(store, guildId, LogChannel(channel));
    }

    /** `/setlogmessage`: store the text that follows the mention. */
    method SetLogMessage(message: string)
      modifies this`store
      ensures store == Upsert(old(store), guildId, LogMessage(message))
    {
      store := Upsert(store, guildId, LogMessage(message));
    }
  }
}
