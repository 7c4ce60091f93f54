# Vanity role bot: the status-scan reconciliation, in Dafny

This project models the core of a chat-community bot. The bot watches the custom
statuses of the members of one guild and manages one configured role. On every scan
cycle it reads the guild's configuration record. Each non-bot member who is online,
idle or on do-not-disturb is granted the role when some custom status contains the
marker `.gg/moggs` (letter case ignored), and loses it when none does. A grant is
announced in the configured log channel as the member's mention followed by the log
text. Administrators set the scan interval, the role, the log channel and the log text
with four commands. Each command writes one field of the guild's stored record. A fifth
command lists the members who currently show the marker.

Modules:

- `Vanity` (vanity.dfy): the member and activity types, the marker, lower-casing,
  substring containment and the vanity test. It also holds the activity loop with its
  early `break` (`DetectVanity`) and the member filter of the listing command
  (`Qualifying`).
- `Config` (config.dfy): the per-guild record with four optional fields, the lookup
  and the single-field upsert with the 60-second and log-text defaults.
- `Scanner` (scanner.dfy): one cycle as a pure function (`RunCycle`). A member's
  decision follows the scan's nested branches (`Decide`), and a pass goes over the
  roster in order (`PassUpTo`, `Reconcile`). The lemmas state the properties of a
  cycle: frame, target state, notices, missing role, idempotence, and agreement with
  the listing.
- `VanityBot` (bot.dfy): class `Bot`. It holds the configuration collection (a map),
  the scan period, the guild's roster (an array the scan updates in place), the ids of
  the live roles and channels, and the log of delivered notices. Its methods are the
  scan (`ScanStatuses`, its roster loop `ReconcileRoster`, whose loop body is
  `ScanMember`), the listing command (`VanityMembers`) and the four set commands. Each
  method is proved against the pure functions above.

Outside inputs are parameters or fields. Whether the platform can find the guild at
the time of a call (`present`) and whether the log channel accepts messages (`canSend`)
are method parameters. Which role and channel ids still exist are fields (`roles`,
`channels`).

The model follows the code as written, including these points:

- Revocation happens only for members who are online, idle or do-not-disturb. An
  offline or invisible member keeps the role even without the marker
  (main.py:115, 131-134).
- The scan period is switched as soon as a record is found, before the guild lookup.
  So a cycle whose guild cannot be found still changes the period (main.py:90-96).
- The period is set on every cycle, whether or not it changed (main.py:91).
- The listing command does not skip bots (main.py:65-71).

## Model

| member | source | states |
|---|---|---|
| Vanity.ContainsIff | main.py:111 | Containment of the marker holds exactly when it starts at some position of the text. |
| Vanity.DetectVanity | main.py:108-113 | The activity loop with its early exit returns true exactly when some activity is a custom status with non-empty text whose lower-cased form contains the marker. |
| Vanity.UpperCaseDetected | main.py:110-111 | A custom status "Check out MY.GG/MOGGS page" is detected: detection ignores letter case. |
| Vanity.MarkerlessNotDetected | main.py:110-111 | A custom status without the marker is not detected. |
| Vanity.LowerIdempotent | main.py:111 | Lower-casing twice gives the same text as lower-casing once. |
| Vanity.Shows | main.py:109-111 | Definition of one activity showing the marker: a custom status whose text is set and non-empty and whose lower-cased form contains `.gg/moggs`. Its loop form is `DetectVanity`; its case independence is `ShowsCaseInsensitive`. |
| Vanity.HasVanity | main.py:108-113 | Definition of a member having the vanity: some activity shows the marker. `DetectVanity` is proved equal to it. |
| Vanity.ShowsCaseInsensitive | main.py:111 | A status shows the marker exactly when its lower-cased text does, so the letter case of the status never changes the outcome. |
| Vanity.Qualifying | main.py:63-71 | The listed members are at most the roster and each one is on the roster, around and showing the marker. |
| Vanity.QualifyingIff | main.py:65-71 | A member is listed if and only if it is on the roster, online/idle/dnd and has the vanity. Bots are not excluded. |
| Vanity.QualifyingEmpty | main.py:73-76 | The list is empty if and only if no roster entry qualifies. |
| Vanity.QualifyingAppend | main.py:65-71 | The list keeps roster order: listing a roster split in two gives the list of the first part followed by the list of the second. |
| Config.Upsert | main.py:38-57 | A set command leaves the guild's record present, with the new value in the one written field and every other field as before (unset when the record is new). Every other guild's record is unchanged and no other key appears. |
| Config.IntervalOf | main.py:90 | Definition of the period a record asks for: its stored interval, or 60 when none is stored. Its effect on a cycle is stated by `RunCycle` and `UpsertIntervalSeen`. |
| Config.LogTextOf | main.py:102 | Definition of the log text a record asks for: its stored message, or "added `.gg/moggs` in their status!". It is what `CycleNoticeOrder` puts after each mention. |
| Config.UpsertCommutes | main.py:38-57 | Writes to two different fields commute; a second write to the same field overrides the first. |
| Config.UpsertIntervalSeen | main.py:38-39 | After the interval command the next cycle reads the new period. The other commands leave the period it reads unchanged, or 60 when none was stored. |
| Scanner.Decide | main.py:105-134 | Definition of one member's decision, with the scan's nested branches: bot, status, vanity, role held. Its flattened meaning is `DecideMeaning`. |
| Scanner.DecideMeaning | main.py:104-134 | A grant goes only to a non-bot member who is around, has the vanity and lacks the resolved role. A revoke goes only to a non-bot member who is around, lacks the vanity and holds the role. Otherwise the member is a bot, is not around, no role resolved, or the member already matches. |
| Scanner.Apply | main.py:117-133 | Definition of carrying out a decision: a grant adds the role to the member's role set, a revoke removes it, keep changes nothing. |
| Scanner.NoticeOf | main.py:117-127 | Definition of the notice one decision produces: one notice "mention log-text" to the channel on a grant when a channel resolved, none otherwise. |
| Scanner.PassUpTo | main.py:104-134 | The pass over the first n members, in roster order, has one member per roster entry and at most as many notices as members. The per-grant count and order are stated by `PassGrantNotices`. |
| Scanner.Reconcile | main.py:104-134 | Definition of the pass over the whole roster. `ReconcileMembers`, `PassGrantNotices` and `ReconcileIdempotent` state its properties. |
| Scanner.GrantIndices | main.py:115-118 | The positions granted the role: a position is listed exactly when its member's decision is a grant, every listed position is on the roster, and the list is strictly increasing (roster order, no repeats). |
| Scanner.RunCycle | main.py:84-96 | Without a record, nothing changes: no period switch, no role change, no notice. With a record, the period becomes the stored interval, defaulting to 60. A guild that is not found changes no roles and posts nothing. |
| Scanner.PassAt | main.py:104-134 | Each member of a pass is that member's own decision carried out. |
| Scanner.PassNotices | main.py:117-127 | A notice appears among a pass's notices exactly when some member's decision is a grant and the notice is that member's mention and log text to the resolved channel. |
| Scanner.PassGrantNotices | main.py:117-127 | A pass posts exactly one notice per grant, in roster order: the t-th notice is for the t-th granted position, to the resolved channel, reading that member's mention and the log text. With no resolved channel it posts nothing. |
| Scanner.PassNoRole | main.py:100-134 | A pass with no resolved role changes no member and posts nothing. |
| Scanner.PassSettled | main.py:117-132 | A pass over members that already match their decision changes nobody and posts nothing. |
| Scanner.ReconcileIdempotent | main.py:117-132 | A second pass over the result of a pass, with the same role, is a no-op. |
| Scanner.CycleFrame | main.py:104-134 | A cycle changes only roles, and only the configured role among them. Bots, offline or invisible members, and every member when the role does not resolve, are left exactly as they were. |
| Scanner.CycleReachesTarget | main.py:115-134 | After a cycle with a resolved role, a non-bot member who is around holds the role if and only if it has the vanity. |
| Scanner.CycleNotices | main.py:100-127 | A notice "mention log-text" is among a cycle's notices if and only if the record and guild were found, role and channel resolved, and some non-bot eligible member lacked the role. The log text defaults to "added `.gg/moggs` in their status!". With no resolved channel nothing is posted. |
| Scanner.CycleNoticeOrder | main.py:100-127 | A cycle posts exactly one notice per member granted the role, in roster order, each to the resolved channel and reading the mention followed by the configured or default log text. With no resolved channel it posts nothing. |
| Scanner.CycleMissingRole | main.py:100-134 | When the configured role does not resolve, no member gains or loses anything and nothing is posted. |
| Scanner.CycleIdempotent | main.py:115-134 | Running a cycle again on its own result, with statuses and configuration unchanged, grants nothing, revokes nothing, posts nothing, and switches to the same period. |
| Scanner.CycleAgreesWithListing | main.py:63-71 | After a cycle with a resolved role, a non-bot member who is around holds the role exactly when the listing command lists it. |
| VanityBot.Bot.constructor | main.py:83 | The bot starts with the given roster, live roles and channels, and the configuration collection (opened at main.py:20-22) as stored before the start, since it survives restarts. The loop period is the decorator's 60 seconds until the first cycle reads the record; no notice has been delivered yet. |
| VanityBot.Bot.ScanStatuses | main.py:84-136 | The roster, the attempted notices and the period after the scan are those of `RunCycle` on the stored record, on whether the guild was found, and on the roster before. Delivered notices are appended only when the channel accepts them; a refused send leaves the grant in place. |
| VanityBot.Bot.ReconcileRoster | main.py:104-134 | The loop over the roster leaves it equal to the pass over the old roster and returns the pass's notices. |
| VanityBot.Bot.ScanMember | main.py:105-134 | One iteration changes only the current member, to its decision carried out, and yields its notice. |
| VanityBot.Bot.VanityMembers | main.py:62-71 | When the guild is found, the listing returns the mentions of the qualifying members, in roster order. When it is not found, the command fails (`None`) instead of replying, and only then. |
| VanityBot.Bot.SetScanner | main.py:37-39 | Stores the interval by upsert and switches the scan period to it. |
| VanityBot.Bot.SetRole | main.py:44-45 | Stores the role id by upsert. |
| VanityBot.Bot.SetLog | main.py:50-51 | Stores the log channel id by upsert. |
| VanityBot.Bot.SetLogMessage | main.py:56-57 | Stores the log text by upsert. |

## Left out

- Login, command registration and sync, gateway intents, the keep-alive server and
  the process entry point (main.py:15-18, 27-33, 146-147). They are transport and
  foreign calls. The role and channel lookups are modelled as an id resolving against
  sets of live ids. The guild lookup is the `present` flag passed to `ScanStatuses`
  and `VanityMembers`.
- The document-store driver (main.py:20-22). Only its map and upsert semantics are
  modelled.
- Config.Find and Scanner.Resolve are the lookups `find_one` (main.py:85) and
  `get_role`/`get_channel` (main.py:100-101), modelled as membership of a map key or of
  a set of live ids. They are definitions; their properties are those of `RunCycle`,
  `CycleRole` and `CycleChannel` and of the lemmas about a cycle.
- VanityBot.Bot.VanityMembers: when the guild cannot be found the source evaluates
  `guild.members` on `None` (main.py:62, 65) and the command raises. The model returns
  `None` for that case; the exception and the failed interaction are not modelled.
- Timer scheduling, the `tasks.loop` machinery and the one-second pause at the end of
  a cycle (main.py:83, 136). The period is recorded as a value (`Bot.interval`).
- The library's rejection of a negative interval in `change_interval` is not part of
  this model. A stored interval is taken as it is.
- Embed construction (titles, colours, footers) and console logging
  (main.py:24-25, 119-124, 128-134). They are presentation only. A notice carries the
  embed's description text and its channel.
- The text of the listing reply (the mentions joined by newlines, or the "No members"
  text) and the `ping` latency command (main.py:73-81). These are presentation and a
  floating-point library value.
- The permission checks on the admin commands and their error handler
  (main.py:36, 138-144). They are library-driven dispatch.
- Failures of `add_roles`/`remove_roles` and exceptions from `channel.send` other than
  a permission refusal (main.py:118, 127, 133). The source does not catch them. The
  model takes the role calls as succeeding.
- VanityBot.Bot.ScanStatuses: whether the log channel accepts messages
  (`canSend`) is fixed for the whole cycle. A channel that refuses some sends and
  accepts others within one cycle is not modelled.
- Vanity.Lower: lower-cases the ASCII letters A-Z only. Python's `str.lower` also
  maps the other Unicode upper-case letters. The marker is ASCII, so only texts that
  contain non-ASCII upper-case letters could differ.
- A channel id that resolves to a channel that cannot receive messages is not
  modelled. Every resolved channel is taken to accept sends when `canSend` holds.
- Changes between cycles that come from the platform: members joining or leaving,
  presence changes, and roles or channels created or deleted. The roster array has a
  fixed length, and no method changes statuses, `roles` or `channels`. A role or
  channel deleted between cycles is covered only by the pure `RunCycle` lemmas
  (`CycleMissingRole`, `CycleNoticeOrder`), which take any set of live ids.
