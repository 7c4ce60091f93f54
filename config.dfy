/** The per-guild configuration record kept in the document store, and the
    single-field upsert each administrative command performs. */
module Config {
  import opened Vanity

  type GuildId = int
  type ChannelId = int

  /** One stored record. Every field is optional: a command sets one field
      at a time, so a record may hold any subset of them. */
  datatype GuildConfig = GuildConfig(interval: Option<int>, roleId: Option<RoleId>,
                                     logChannel: Option<ChannelId>, logMessage: Option<string>)

  /** The record an upsert starts from when the guild has none yet. */
  const Empty: GuildConfig := GuildConfig(None, None, None, None)

  /** Period of the scan loop before any configuration is read. */
  const DefaultInterval: int := 60

  /** Text appended to the mention when no log message is configured. */
  const DefaultLogText: string := "added `" + Marker + "` in their status!"

  /** The one field a command writes, with its new value. */
  datatype Field =
    | Interval(seconds: int)
    | Role(role: RoleId)
    | LogChannel(channel: ChannelId)
    | LogMessage(message: string)

  /** Looking a guild's record up: absent means not yet configured. */
  function Find(store: map<GuildId, GuildConfig>, g: GuildId): Option<GuildConfig> {
    if g in store then Some(store[g]) else None
  }

  /** The scan period a record asks for, 60 seconds when unset. */
  function IntervalOf(c: GuildConfig): int {
    match c.interval
    case Some(s) => s
    case None => DefaultInterval
  }

  /** The log text a record asks for, the built-in text when unset. */
  function LogTextOf(c: GuildConfig): string {
    match c.logMessage
    case Some(t) => t
    case None => DefaultLogText
  }

  function SetField(c: GuildConfig, f: Field): GuildConfig {
    match f
    case Interval(s) => c.(interval := Some(s))
    case Role(r) => c.(roleId := Some(r))
    case LogChannel(ch) => c.(logChannel := Some(ch))
    case LogMessage(t) => c.(logMessage := Some(t))
  }

  /** `$set` of one field with `upsert=True`: the guild's record exists
      afterwards, holds the new value in the written field and keeps every
      other field it had (none, if it was created); every other guild's
      record is left alone. */
  function Upsert(store: map<GuildId, GuildConfig>, g: GuildId, f: Field): (r: map<GuildId, GuildConfig>)
    ensures r.Keys == store.Keys + {g}
    ensures forall h :: h in store && h != g ==> r[h] == store[h]
    ensures var before := if g in store then store[g] else Empty;
      && (if f.Interval? then r[g].interval == Some(f.seconds) else r[g].interval == before.interval)
      && (if f.Role? then r[g].roleId == Some(f.role) else r[g].roleId == before.roleId)
      && (if f.LogChannel? then r[g].logChannel == Some(f.channel) else r[g].logChannel == before.logChannel)
      && (if f.LogMessage? then r[g].logMessage == Some(f.message) else r[g].logMessage == before.logMessage)
  {
    store[g := SetField(if g in store then store[g] else Empty, f)]
  }

  /** Writes of two different fields commute, and writing a field twice
      keeps only the second value. */
  lemma UpsertCommutes(store: map<GuildId, GuildConfig>, g: GuildId, f1: Field, f2: Field)
    ensures f1.Interval? == f2.Interval? && f1.Role? == f2.Role? && f1.LogChannel? == f2.LogChannel?
            ==> Upsert(Upsert(store, g, f1), g, f2) == Upsert(store, g, f2)
    ensures !(f1.Interval? == f2.Interval? && f1.Role? == f2.Role? && f1.LogChannel? == f2.LogChannel?)
            ==> Upsert(Upsert(store, g, f1), g, f2) == Upsert(Upsert(store, g, f2), g, f1)
  {
  }

  /** After the interval command, the next cycle reads the new period; the
      other three commands leave the period the next cycle reads unchanged. */
  lemma UpsertIntervalSeen(store: map<GuildId, GuildConfig>, g: GuildId, f: Field)
    ensures Find(Upsert(store, g, f), g).Some?
    ensures f.Interval? ==> IntervalOf(Find(Upsert(store, g, f), g).value) == f.seconds
    ensures !f.Interval? && g in store ==> IntervalOf(Find(Upsert(store, g, f), g).value) == IntervalOf(store[g])
    ensures !f.Interval? && g !in store ==> IntervalOf(Find(Upsert(store, g, f), g).value) == DefaultInterval
    ensures !f.LogMessage? && g in store ==> LogTextOf(Find(Upsert(store, g, f), g).value) == LogTextOf(store[g])
  {
  }
}
