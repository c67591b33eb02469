/**
 * The Discord side the commands touch: a guild member (its role ids, its
 * nickname), the guild's member lookup, and the two database collections.
 */
module Discord {
  import opened Wrappers
  import opened RoleLists
  import opened Schema
  import opened SlotMaps

  /** The `nick` of a `member.edit`: left as it is (undefined), cleared (null) or set. */
  datatype NickEdit = KeepNick | ClearNick | SetNick(nick: string)

  class Member {
    /** `member.id`, which is also `member.user.id`. */
    const id: string
    /** `member.user.tag`. */
    const tag: string
    /** `member.displayName`, an input of its own: it is not derived from `nick`. */
    const displayName: string
    /** `member.manageable`: the bot can change this member's nickname. */
    const manageable: bool
    /** The ids of `member.roles.cache` in its order; a role is held once. */
    var roles: seq<RoleId>
    /** `member.nickname`; `None` for none. */
    var nick: Option<string>

    constructor(id: string, tag: string, displayName: string, manageable: bool, roles: seq<RoleId>, nick: Option<string>)
      ensures this.id == id && this.tag == tag && this.displayName == displayName && this.manageable == manageable
      ensures this.roles == roles && this.nick == nick
    {
      this.id := id;
      this.tag := tag;
      this.displayName := displayName;
      this.manageable := manageable;
      this.roles := roles;
      this.nick := nick;
    }

    /** `member.edit({ roles, nick })`: Discord keeps each role once. */
    method Edit(newRoles: seq<RoleId>, newNick: NickEdit)
      modifies this
      ensures roles == Dedup(newRoles)
      ensures nick == match newNick
        case KeepNick => old(nick)
        case ClearNick => None
        case SetNick(n) => Some(n)
    {
      roles := Dedup(newRoles);
      match newNick {
        case KeepNick =>
        case ClearNick => nick := None;
        case SetNick(n) => nick := Some(n);
      }
    }
  }

  /** The members the guild can fetch, by id; each is filed under its own id. */
  predicate GuildIds(guild: map<string, Member>)
  {
    forall id :: id in guild ==> guild[id].id == id
  }

  /**
   * A keyed lookup that yields undefined for an absent key: `fetchMember(id)`,
   * whose `catch` turns a failed fetch into undefined, and `getUserByDiscord(id)`.
   */
  function Find<V>(m: map<string, V>, key: string): (r: Option<V>)
    ensures r.Some? <==> key in m
    ensures r.Some? ==> r.value == m[key]
  {
    if key in m then Some(m[key]) else None
  }

  /** The collection as the commands see it: each record filed under its `_id`, its slots a JavaScript object. */
  predicate FiledById(users: map<string, UserRecord>)
  {
    forall k :: k in users ==> users[k].id == k && UniqueKeys(users[k].emotes.slots)
  }

  /** Writing a key twice keeps the second write. */
  lemma UpdateTwice(m: map<string, UserRecord>, k: string, a: UserRecord, b: UserRecord)
    ensures m[k := a][k := b] == m[k := b]
  {
  }

  /**
   * The `users` collection. The commands find records by Discord id (`_id`); the
   * verification engine looks them up by Minecraft uuid, so it files them under the uuid.
   */
  class UserStore {
    var users: map<string, UserRecord>

    constructor(users: map<string, UserRecord>)
      ensures this.users == users
    {
      this.users := users;
    }
  }

  /** The `polls` collection, by message id. */
  class PollStore {
    var polls: map<string, PollRecord>

    constructor(polls: map<string, PollRecord>)
      ensures this.polls == polls
    {
      this.polls := polls;
    }
  }
}
