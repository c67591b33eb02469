/**
 * The stored records: a verified user and a top-player poll, with the
 * constructors `userSchema` and `pollSchema` that build fresh ones.
 */
module Schema {
  import opened Wrappers
  import opened SlotMaps

  /** `emotes` of a user record. */
  datatype Emotes = Emotes(unlocked: seq<string>, given: seq<string>, slots: Slots)

  /**
   * A user record. `discordId` is `None` when the field is absent or null;
   * `votedIn`/`votedOut` are false when absent: nothing ever stores false in them.
   */
  datatype UserRecord = UserRecord(
    id: string,
    uuid: string,
    emotes: Emotes,
    discordId: Option<string>,
    votedIn: bool,
    votedOut: bool)

  /** `userSchema(id, uuid)`. */
  function UserSchema(id: string, uuid: string): UserRecord
  {
    UserRecord(id, uuid, Emotes([], [], [Entry("default", "none")]), None, false, false)
  }

  /** A fresh record belongs to `id` and `uuid`, owns no emote and has the single slot `default`, empty. */
  lemma UserSchemaFresh(id: string, uuid: string)
    ensures var u := UserSchema(id, uuid);
      && u.id == id && u.uuid == uuid
      && u.emotes.unlocked == [] && u.emotes.given == []
      && Keys(u.emotes.slots) == ["default"] && Get(u.emotes.slots, "default") == Some("none")
      && UniqueKeys(u.emotes.slots)
      && u.discordId.None? && !u.votedIn && !u.votedOut
  {
  }

  datatype Votes = Votes(positive: seq<string>, neutral: seq<string>, negative: seq<string>)

  /** `stats` of a poll; `masterSix` is `None` for undefined. */
  datatype PollStats = PollStats(cataLevel: real, secrets: int, bloodMobs: int, masterSix: Option<int>, masterSixCompletions: int)

  /** A poll record; `endDate` is in seconds since the epoch, as `getTime() / 1000` gives it. */
  datatype PollRecord = PollRecord(
    id: string,
    channel: string,
    uuid: string,
    username: string,
    active: bool,
    endDate: real,
    votes: Votes,
    stats: PollStats)

  /** Six hours, in milliseconds. */
  const SixHours: int := 6 * 60 * 60 * 1000

  /**
   * `pollSchema(message, mojang)` created at `nowMs` milliseconds since the
   * epoch: the end date is six hours later, divided down to seconds.
   */
  function PollSchema(messageId: string, channelId: string, uuid: string, name: string, nowMs: int): (p: PollRecord)
    ensures p.endDate * 1000.0 == (nowMs + SixHours) as real
  {
    PollRecord(messageId, channelId, uuid, name, true, (nowMs + SixHours) as real / 1000.0,
      Votes([], [], []), PollStats(0.0, 0, 0, None, 0))
  }

  /** A fresh poll copies the message, channel and player, is active, has no votes and zero stats. */
  lemma PollSchemaFresh(messageId: string, channelId: string, uuid: string, name: string, nowMs: int)
    ensures var p := PollSchema(messageId, channelId, uuid, name, nowMs);
      && p.id == messageId && p.channel == channelId && p.uuid == uuid && p.username == name
      && p.active && p.votes == Votes([], [], [])
      && p.stats.cataLevel == 0.0 && p.stats.secrets == 0 && p.stats.bloodMobs == 0
      && p.stats.masterSix.None? && p.stats.masterSixCompletions == 0
  {
  }
}
