/** One reconciliation cycle as a function of the stored configuration and
    the roster snapshot: which members gain or lose the configured role and
    which log notices are produced. */
module Scanner {
  import opened Vanity
  import opened Config

  /** What the platform shows of the guild: its members in roster order and
      the ids of the roles and channels that still exist. */
  datatype Guild = Guild(members: seq<Member>, roles: set<RoleId>, channels: set<ChannelId>)

  /** A log message posted to a channel. */
  datatype Notice = Notice(channel: ChannelId, text: string)

  /** The intent for one member. */
  datatype Decision = Grant(role: RoleId) | Revoke(role: RoleId) | Keep

  /** The members after a pass over the roster and the notices it produced. */
  datatype Pass = Pass(members: seq<Member>, notices: seq<Notice>)

  /** The outcome of a cycle: the period the scheduler is switched to (none
      when no record was found), the roster afterwards and the notices. */
  datatype Cycle = Cycle(interval: Option<int>, members: seq<Member>, notices: seq<Notice>)

  /** A lookup by id against the live objects; an unset id never resolves. */
  function Resolve(id: Option<int>, live: set<int>): Option<int> {
    if id.Some? && id.value in live then id else None
  }

  /** The decision for one member, nested as the scan nests it: bots are
      skipped, only members who are around are looked at, a grant needs the
      vanity and a missing role, a revoke needs no vanity and a held role. */
  function Decide(m: Member, role: Option<RoleId>): Decision
  {
    if m.bot then Keep
    else if Active(m.status) then
      if HasVanity(m.activities) then
        if role.Some? && role.value !in m.roles then Grant(role.value) else Keep
      else if role.Some? && role.value in m.roles then Revoke(role.value) else Keep
    else Keep
  }

  /** What each decision means: a grant goes to a non-bot member who is
      around, shows the vanity and lacks the resolved role; a revoke to one
      who is around, does not show it and holds the role; every other
      member already matches, is a bot, is not around, or no role resolved. */
  lemma DecideMeaning(m: Member, role: Option<RoleId>)
    ensures var d := Decide(m, role);
      && (d.Grant? ==> role == Some(d.role) && !m.bot && Eligible(m) && d.role !in m.roles)
      && (d.Revoke? ==> role == Some(d.role) && !m.bot && Active(m.status)
                        && !HasVanity(m.activities) && d.role in m.roles)
      && (d.Keep? ==> m.bot || !Active(m.status) || role.None?
                      || (HasVanity(m.activities) <==> role.value in m.roles))
  {
  }

  /** The member after carrying out a decision. */
  function Apply(m: Member, d: Decision): Member {
    match d
    case Grant(r) => m.(roles := m.roles + {r})
    case Revoke(r) => m.(roles := m.roles - {r})
    case Keep => m
  }

  /** The notice a decision produces: one on a grant when a channel
      resolved, none otherwise. */
  function NoticeOf(m: Member, d: Decision, channel: Option<ChannelId>, text: string): seq<Notice> {
    if d.Grant? && channel.Some? then [Notice(channel.value, m.mention + " " + text)] else []
  }

  /** The pass over the first `n` members, member by member in roster order. */
  function PassUpTo(ms: seq<Member>, n: int, role: Option<RoleId>, channel: Option<ChannelId>, text: string): (r: Pass)
    requires 0 <= n <= |ms|
    ensures |r.members| == n
    ensures |r.notices| <= n
  {
    if n == 0 then Pass([], [])
    else
      var p := PassUpTo(ms, n - 1, role, channel, text);
      var d := Decide(ms[n - 1], role);
      Pass(p.members + [Apply(ms[n - 1], d)], p.notices + NoticeOf(ms[n - 1], d, channel, text))
  }

  /** The pass over the whole roster. */
  function Reconcile(ms: seq<Member>, role: Option<RoleId>, channel: Option<ChannelId>, text: string): Pass {
    PassUpTo(ms, |ms|, role, channel, text)
  }

  /** The role id a cycle works with, when the record and the guild were
      found and the role still exists. */
  function CycleRole(config: Option<GuildConfig>, present: bool, g: Guild): Option<RoleId> {
    if config.Some? && present then Resolve(config.value.roleId, g.roles) else None
  }

  /** The log channel a cycle works with, under the same conditions. */
  function CycleChannel(config: Option<GuildConfig>, present: bool, g: Guild): Option<ChannelId> {
    if config.Some? && present then Resolve(config.value.logChannel, g.channels) else None
  }

  /** A whole cycle: without a record nothing happens; with one the period
      is switched first, and a guild that cannot be found stops the cycle
      there; otherwise the roster is reconciled against the resolved role
      and channel. */
  function RunCycle(config: Option<GuildConfig>, present: bool, g: Guild): (r: Cycle)
    ensures config.None? ==> r == Cycle(None, g.members, [])
    ensures config.Some? ==> r.interval == Some(IntervalOf(config.value))
    ensures !present ==> r.members == g.members && r.notices == []
    ensures |r.members| == |g.members|
  {
    match config
    case None => Cycle(None, g.members, [])
    case Some(c) =>
      if !present then Cycle(Some(IntervalOf(c)), g.members, [])
      else
        var p := Reconcile(g.members, Resolve(c.roleId, g.roles),
                           Resolve(c.logChannel, g.channels), LogTextOf(c));
        Cycle(Some(IntervalOf(c)), p.members, p.notices)
  }

  /** Each member of a pass is its own decision carried out. */
  lemma {:induction false} PassAt(ms: seq<Member>, n: int, role: Option<RoleId>, channel: Option<ChannelId>,
                                  text: string, i: int)
    requires 0 <= i < n <= |ms|
    ensures PassUpTo(ms, n, role, channel, text).members[i] == Apply(ms[i], Decide(ms[i], role))
  {
    if i < n - 1 {
      PassAt(ms, n - 1, role, channel, text, i);
    }
  }

  lemma ReconcileAt(ms: seq<Member>, role: Option<RoleId>, channel: Option<ChannelId>, text: string, i: int)
    requires 0 <= i < |ms|
    ensures Reconcile(ms, role, channel, text).members[i] == Apply(ms[i], Decide(ms[i], role))
  {
    PassAt(ms, |ms|, role, channel, text, i);
  }

  /** A roster whose every member is the decision for the corresponding
      member of `ms` carried out is the roster the pass produces. */
  lemma ReconcileMembers(ms: seq<Member>, done: seq<Member>, role: Option<RoleId>, channel: Option<ChannelId>,
                         text: string)
    requires |done| == |ms|
    requires forall j :: 0 <= j < |ms| ==> done[j] == Apply(ms[j], Decide(ms[j], role))
    ensures Reconcile(ms, role, channel, text).members == done
  {
    forall j | 0 <= j < |ms| ensures Reconcile(ms, role, channel, text).members[j] == done[j] {
      ReconcileAt(ms, role, channel, text, j);
    }
  }

  /** The notices of a pass are exactly those of its grants. */
  lemma {:induction false} PassNotices(ms: seq<Member>, k: int, role: Option<RoleId>, channel: Option<ChannelId>,
                                       text: string, n: Notice)
    requires 0 <= k <= |ms|
    ensures n in PassUpTo(ms, k, role, channel, text).notices
            <==> channel.Some? && exists j :: 0 <= j < k && Decide(ms[j], role).Grant?
                                             && n == Notice(channel.value, ms[j].mention + " " + text)
  {
    if k > 0 {
      PassNotices(ms, k - 1, role, channel, text, n);
      var last := k - 1;
      if channel.Some? && Decide(ms[last], role).Grant? && n == Notice(channel.value, ms[last].mention + " " + text) {
        assert n in NoticeOf(ms[last], Decide(ms[last], role), channel, text);
      }
    }
  }

  /** The positions among the first `k` members whose decision is a grant,
      in increasing order. */
  function GrantIndices(ms: seq<Member>, k: int, role: Option<RoleId>): (r: seq<int>)
    requires 0 <= k <= |ms|
    ensures forall j :: j in r <==> 0 <= j < k && Decide(ms[j], role).Grant?
    ensures forall t :: 0 <= t < |r| ==> 0 <= r[t] < k
    ensures forall a, b :: 0 <= a < b < |r| ==> r[a] < r[b]
  {
    if k == 0 then []
    else GrantIndices(ms, k - 1, role) + (if Decide(ms[k - 1], role).Grant? then [k - 1] else [])
  }

  /** Each notice reads the mention of the member at the matching grant
      position. */
  predicate NoticesFor(ns: seq<Notice>, gi: seq<int>, ms: seq<Member>, ch: ChannelId, text: string) {
    && |ns| == |gi|
    && (forall t :: 0 <= t < |gi| ==> 0 <= gi[t] < |ms|)
    && (forall t :: 0 <= t < |gi| ==> ns[t] == Notice(ch, ms[gi[t]].mention + " " + text))
  }

  lemma NoticesForAppend(ns: seq<Notice>, gi: seq<int>, ns': seq<Notice>, gi': seq<int>, ms: seq<Member>,
                         ch: ChannelId, text: string)
    requires NoticesFor(ns, gi, ms, ch, text) && NoticesFor(ns', gi', ms, ch, text)
    ensures NoticesFor(ns + ns', gi + gi', ms, ch, text)
  {
    forall t | 0 <= t < |gi + gi'|
      ensures 0 <= (gi + gi')[t] < |ms|
      ensures (ns + ns')[t] == Notice(ch, ms[(gi + gi')[t]].mention + " " + text)
    {
      if t >= |gi| {
        assert (gi + gi')[t] == gi'[t - |gi|] && (ns + ns')[t] == ns'[t - |gi|];
      }
    }
  }

  /** One more member extends the notices by its own notice and the grant
      positions by its position exactly when it is granted. */
  lemma NoticesStep(ns: seq<Notice>, gi: seq<int>, ms: seq<Member>, k: int, d: Decision, ch: ChannelId, text: string)
    requires 0 < k <= |ms|
    requires NoticesFor(ns, gi, ms, ch, text)
    ensures NoticesFor(ns + NoticeOf(ms[k - 1], d, Some(ch), text), gi + (if d.Grant? then [k - 1] else []),
                       ms, ch, text)
  {
    var tail := if d.Grant? then [k - 1] else [];
    assert NoticesFor(NoticeOf(ms[k - 1], d, Some(ch), text), tail, ms, ch, text);
    NoticesForAppend(ns, gi, NoticeOf(ms[k - 1], d, Some(ch), text), tail, ms, ch, text);
  }

  /** A pass posts one notice per grant, in roster order, each to the
      resolved channel and reading that member's mention followed by the log
      text; with no resolved channel it posts none. */
  lemma {:induction false} PassGrantNotices(ms: seq<Member>, k: int, role: Option<RoleId>,
                                            channel: Option<ChannelId>, text: string)
    requires 0 <= k <= |ms|
    ensures channel.None? ==> PassUpTo(ms, k, role, channel, text).notices == []
    ensures channel.Some? ==>
              NoticesFor(PassUpTo(ms, k, role, channel, text).notices, GrantIndices(ms, k, role), ms, channel.value, text)
  {
    if k > 0 {
      PassGrantNotices(ms, k - 1, role, channel, text);
      var prev, gi := PassUpTo(ms, k - 1, role, channel, text).notices, GrantIndices(ms, k - 1, role);
      var d := Decide(ms[k - 1], role);
      assert PassUpTo(ms, k, role, channel, text).notices == prev + NoticeOf(ms[k - 1], d, channel, text);
      if channel.Some? {
        assert GrantIndices(ms, k, role) == gi + (if d.Grant? then [k - 1] else []);
        NoticesStep(prev, gi, ms, k, d, channel.value, text);
      }
    }
  }

  /** A pass that so far changed nobody and posted nothing still has not
      after a member whose decision is to keep. */
  lemma PassKeepStep(ms: seq<Member>, k: int, role: Option<RoleId>, channel: Option<ChannelId>, text: string)
    requires 0 < k <= |ms|
    requires PassUpTo(ms, k - 1, role, channel, text) == Pass(ms[..k - 1], [])
    requires Decide(ms[k - 1], role) == Keep
    ensures PassUpTo(ms, k, role, channel, text) == Pass(ms[..k], [])
  {
    assert ms[..k] == ms[..k - 1] + [ms[k - 1]];
  }

  /** Without a resolved role a pass changes nobody and posts nothing. */
  lemma {:induction false} PassNoRole(ms: seq<Member>, k: int, channel: Option<ChannelId>, text: string)
    requires 0 <= k <= |ms|
    ensures PassUpTo(ms, k, None, channel, text) == Pass(ms[..k], [])
  {
    if k > 0 {
      PassNoRole(ms, k - 1, channel, text);
      PassKeepStep(ms, k, None, channel, text);
    }
  }

  /** A member whose decision was carried out needs nothing more. */
  lemma DecideSettled(m: Member, role: Option<RoleId>)
    ensures Decide(Apply(m, Decide(m, role)), role) == Keep
  {
  }

  /** A pass over members that each already match their decision changes
      nobody and posts nothing. */
  lemma {:induction false} PassSettled(ms: seq<Member>, done: seq<Member>, k: int, role: Option<RoleId>,
                                       channel: Option<ChannelId>, text: string)
    requires 0 <= k <= |ms| == |done|
    requires forall j :: 0 <= j < k ==> done[j] == Apply(ms[j], Decide(ms[j], role))
    ensures PassUpTo(done, k, role, channel, text) == Pass(done[..k], [])
  {
    if k > 0 {
      PassSettled(ms, done, k - 1, role, channel, text);
      DecideSettled(ms[k - 1], role);
      PassKeepStep(done, k, role, channel, text);
    }
  }

  /** A second pass over the result of a pass, with the same role, changes
      nobody and posts nothing. */
  lemma ReconcileIdempotent(ms: seq<Member>, role: Option<RoleId>, channel: Option<ChannelId>, text: string)
    ensures var p := Reconcile(ms, role, channel, text);
            Reconcile(p.members, role, channel, text) == Pass(p.members, [])
  {
    var done := Reconcile(ms, role, channel, text).members;
    forall j | 0 <= j < |ms| ensures done[j] == Apply(ms[j], Decide(ms[j], role)) {
      ReconcileAt(ms, role, channel, text, j);
    }
    PassSettled(ms, done, |ms|, role, channel, text);
    assert done[..|ms|] == done;
  }

  /** What a cycle may change about one member: only its roles, and only
      the configured role among them; bots, members who are not around and
      every member when the role does not resolve are left exactly as they
      were. */
  lemma CycleFrame(config: Option<GuildConfig>, present: bool, g: Guild, i: int)
    requires 0 <= i < |g.members|
    ensures var m, m' := g.members[i], RunCycle(config, present, g).members[i];
      && m'.mention == m.mention && m'.bot == m.bot && m'.status == m.status
      && m'.activities == m.activities
      && (m.bot || !Active(m.status) || CycleRole(config, present, g).None? ==> m' == m)
      && (CycleRole(config, present, g).Some? ==>
            var x := CycleRole(config, present, g).value;
            m'.roles - {x} == m.roles - {x})
  {
    if config.Some? && present {
      var c := config.value;
      ReconcileAt(g.members, Resolve(c.roleId, g.roles), Resolve(c.logChannel, g.channels), LogTextOf(c), i);
    }
  }

  /** The role a cycle leaves a non-bot member who is around with matches
      the vanity: granted when it shows, revoked when it does not. */
  lemma CycleReachesTarget(config: Option<GuildConfig>, present: bool, g: Guild, i: int)
    requires 0 <= i < |g.members|
    requires CycleRole(config, present, g).Some?
    requires !g.members[i].bot && Active(g.members[i].status)
    ensures var x := CycleRole(config, present, g).value;
            x in RunCycle(config, present, g).members[i].roles <==> HasVanity(g.members[i].activities)
  {
    var c := config.value;
    ReconcileAt(g.members, Resolve(c.roleId, g.roles), Resolve(c.logChannel, g.channels), LogTextOf(c), i);
  }

  /** A notice is posted exactly for each member granted the role, to the
      resolved channel, reading the mention followed by the log text; with
      no resolved channel, or on a revoke, nothing is posted. */
  lemma CycleNotices(config: Option<GuildConfig>, present: bool, g: Guild, n: Notice)
    ensures CycleChannel(config, present, g).None? ==> RunCycle(config, present, g).notices == []
    ensures n in RunCycle(config, present, g).notices
            <==> && config.Some? && present
                 && CycleRole(config, present, g).Some? && CycleChannel(config, present, g).Some?
                 && exists j :: 0 <= j < |g.members| && !g.members[j].bot && Eligible(g.members[j])
                                && CycleRole(config, present, g).value !in g.members[j].roles
                                && n == Notice(CycleChannel(config, present, g).value,
                                               g.members[j].mention + " " + LogTextOf(config.value))
  {
    if config.Some? && present {
      var c := config.value;
      var role, channel := Resolve(c.roleId, g.roles), Resolve(c.logChannel, g.channels);
      PassNotices(g.members, |g.members|, role, channel, LogTextOf(c), n);
      if channel.None? && RunCycle(config, present, g).notices != [] {
        PassNotices(g.members, |g.members|, role, channel, LogTextOf(c), RunCycle(config, present, g).notices[0]);
      }
      if role.None? {
        PassNoRole(g.members, |g.members|, channel, LogTextOf(c));
        assert g.members[..|g.members|] == g.members;
      }
    }
  }

  /** The notices of a cycle are one per member granted the role, in
      roster order, each to the resolved channel and reading the mention
      followed by the log text; with no resolved channel there are none. */
  lemma CycleNoticeOrder(config: Option<GuildConfig>, present: bool, g: Guild)
    ensures CycleChannel(config, present, g).None? ==> RunCycle(config, present, g).notices == []
    ensures CycleChannel(config, present, g).Some? ==>
              NoticesFor(RunCycle(config, present, g).notices,
                         GrantIndices(g.members, |g.members|, CycleRole(config, present, g)),
                         g.members, CycleChannel(config, present, g).value, LogTextOf(config.value))
  {
    if config.Some? && present {
      PassGrantNotices(g.members, |g.members|, CycleRole(config, present, g), CycleChannel(config, present, g),
                       LogTextOf(config.value));
    }
  }

  /** A configured role id that no longer resolves makes the cycle change
      no member and post nothing. */
  lemma CycleMissingRole(config: Option<GuildConfig>, present: bool, g: Guild)
    requires CycleRole(config, present, g).None?
    ensures RunCycle(config, present, g).members == g.members
    ensures RunCycle(config, present, g).notices == []
  {
    if config.Some? && present {
      var c := config.value;
      PassNoRole(g.members, |g.members|, Resolve(c.logChannel, g.channels), LogTextOf(c));
      assert g.members[..|g.members|] == g.members;
    }
  }

  /** Running a cycle again on its own result, with the same statuses and
      configuration, grants nothing, revokes nothing and posts nothing. */
  lemma CycleIdempotent(config: Option<GuildConfig>, present: bool, g: Guild)
    ensures var r := RunCycle(config, present, g);
            var r2 := RunCycle(config, present, g.(members := r.members));
            r2.members == r.members && r2.notices == [] && r2.interval == r.interval
  {
    if config.Some? && present {
      var c := config.value;
      ReconcileIdempotent(g.members, Resolve(c.roleId, g.roles), Resolve(c.logChannel, g.channels), LogTextOf(c));
    }
  }

  /** The members `vanitymembers` lists are the ones a cycle leaves holding
      the role, among the non-bot members who are around. */
  lemma CycleAgreesWithListing(config: Option<GuildConfig>, present: bool, g: Guild, i: int)
    requires 0 <= i < |g.members|
    requires CycleRole(config, present, g).Some?
    requires !g.members[i].bot && Active(g.members[i].status)
    ensures CycleRole(config, present, g).value in RunCycle(config, present, g).members[i].roles
            <==> g.members[i] in Qualifying(g.members)
  {
    CycleReachesTarget(config, present, g, i);
    QualifyingIff(g.members, g.members[i]);
  }
}
