/**
 * `/forceupdate user`: re-runs the verification engine for a member. The
 * Minecraft account comes from the member's stored record when there is one,
 * and otherwise from the second word of the member's display name; the
 * engine's error codes are turned into replies.
 */
module ForceUpdateCommand {
  import opened Wrappers
  import opened Text
  import opened RoleLists
  import opened Config
  import opened Schema
  import opened Discord
  import VM = VerificationManager

  /**
   * `member.displayName.split(" ")[1].replace(/\W/g, '')`: the word
   * characters of the second space-separated token, or `None` when there is
   * no second token and the access throws.
   */
  function NameFromDisplay(displayName: string): (r: Option<string>)
    ensures r.Some? <==> ' ' in displayName
    ensures r.Some? ==> forall i :: 0 <= i < |r.value| ==> WordChar(r.value[i])
  {
    SplitHasSecond(displayName, ' ');
    var parts := Split(displayName, ' ');
    if |parts| < 2 then None else Some(KeepWordChars(parts[1]))
  }

  /** A string with no separator splits into itself. */
  lemma {:induction false} SplitNoSeparator(s: string, sep: char)
    requires sep !in s
    ensures Split(s, sep) == [s]
  {
    if s != [] {
      assert s[0] != sep;
      SplitNoSeparator(s[1..], sep);
      assert [s[0]] + s[1..] == s;
    }
  }

  /** Two tokens around one separator split into exactly those tokens. */
  lemma {:induction false} SplitAround(a: string, b: string, sep: char)
    requires sep !in a && sep !in b
    ensures Split(a + [sep] + b, sep) == [a, b]
  {
    var s := a + [sep] + b;
    if a == [] {
      assert s[1..] == b;
      SplitNoSeparator(b, sep);
    } else {
      assert s[1..] == a[1..] + [sep] + b;
      SplitAround(a[1..], b, sep);
      assert [a[0]] + a[1..] == a;
    }
  }

  /** A display name "❮L❯ name" yields the word characters of `name`. */
  lemma NameOfLevelledDisplay(prefix: string, name: string)
    requires ' ' !in prefix && ' ' !in name
    ensures NameFromDisplay(prefix + " " + name) == Some(KeepWordChars(name))
  {
    SplitAround(prefix, name, ' ');
    assert prefix + " " + name == prefix + [' '] + name;
  }

  /** The replies. */
  datatype UpdateReply =
    | NotInServer
    | NoName                 // no record, and the display name has no second word
    | UnknownName            // no record, and Mojang does not know the name
    | UuidLookupFailed       // the stored uuid does not resolve
    | HypixelErrorReply
    | NoDiscordReply
    | HypixelMismatchReply
    | MongoMismatchReply
    | UnknownErrorReply      // every other failure code
    | Updated(d: VM.Dungeons)
    | Crashed                // the engine threw, or succeeded without stats

  /** The `switch` over the engine's failure code. */
  function ErrorReply(code: VM.VerifyError): (r: UpdateReply)
    ensures r == UnknownErrorReply <==>
      !(code == VM.HypixelError || code == VM.NoDiscord || code == VM.HypixelDiscordMismatch || code == VM.MongoDiscordMismatch)
  {
    match code
    case HypixelError => HypixelErrorReply
    case NoDiscord => NoDiscordReply
    case HypixelDiscordMismatch => HypixelMismatchReply
    case MongoDiscordMismatch => MongoMismatchReply
    case _ => UnknownErrorReply
  }

  /**
   * The reply to the engine's outcome. A success without stats (the manual
   * path) would dereference missing `dungeons` and throw.
   */
  function Reply(o: VM.Outcome): UpdateReply
  {
    match o
    case Failure(code) => ErrorReply(code)
    case FullSuccess(d) => Updated(d)
    case ManualSuccess => Crashed
    case Thrown => Crashed
  }

  /** The options `verify` receives: only `forceUpdate`, so no bypass, no level and no profile name. */
  const UpdateOptions := VM.VerifyOptions(0, "", false, None, false)

  /** The account the command resolves, when it resolves one. */
  function ResolvedAccount(records: map<string, UserRecord>, id: string, displayName: string,
    byName: map<string, VM.Account>, byUuid: map<string, VM.Account>): Option<VM.Account>
  {
    if id in records then
      (if records[id].uuid in byUuid then Some(byUuid[records[id].uuid]) else None)
    else
      var name := NameFromDisplay(displayName);
      if name.Some? && name.value in byName then Some(byName[name.value]) else None
  }

  /**
   * The command. `records` is the collection as `getUserByDiscord` sees it;
   * `byName` and `byUuid` are the Mojang lookups that succeed. A failed
   * resolution changes nothing; otherwise the engine's full path runs with
   * the Discord checks, and its outcome is the ghost `outcome`.
   */
  method Execute(records: map<string, UserRecord>, store: UserStore, guild: map<string, Member>, targetId: string,
    cfg: BotConfig, byName: map<string, VM.Account>, byUuid: map<string, VM.Account>,
    player: Option<VM.Player>, profiles: VM.ProfilesReply, emojis: string)
    returns (r: UpdateReply, ghost outcome: VM.Outcome)
    requires ValidConfig(cfg) && GuildIds(guild)
    requires targetId in guild ==> Distinct(guild[targetId].roles)
    modifies store, guild.Values
    ensures targetId !in guild ==> r == NotInServer
    ensures targetId in guild && targetId !in records && NameFromDisplay(guild[targetId].displayName).None? ==> r == NoName
    ensures targetId in guild && targetId !in records && NameFromDisplay(guild[targetId].displayName).Some? ==>
      (NameFromDisplay(guild[targetId].displayName).value !in byName ==> r == UnknownName)
    ensures targetId in guild && targetId in records && records[targetId].uuid !in byUuid ==> r == UuidLookupFailed
    ensures targetId !in guild || ResolvedAccount(records, targetId, guild[targetId].displayName, byName, byUuid).None? ==>
      && store.users == old(store.users)
      && (forall id :: id in guild ==> guild[id].roles == old(guild[id].roles) && guild[id].nick == old(guild[id].nick))
    ensures targetId in guild && ResolvedAccount(records, targetId, guild[targetId].displayName, byName, byUuid).Some? ==>
      var member := guild[targetId];
      var account := ResolvedAccount(records, targetId, member.displayName, byName, byUuid).value;
      && r == Reply(outcome)
      && outcome != VM.Failure(VM.InvalidUsername) && outcome != VM.ManualSuccess
      && (player.None? ==> outcome == VM.Failure(VM.HypixelError))
      && (player.Some? && player.value.discord == "" ==> outcome == VM.Failure(VM.NoDiscord))
      && (player.Some? && player.value.discord != "" && player.value.discord != member.tag ==> outcome == VM.Failure(VM.HypixelDiscordMismatch))
      && (!VM.PassesDiscord(player, member.tag, false) ==>
        && store.users == old(store.users)
        && (forall id :: id in guild ==> guild[id].roles == old(guild[id].roles) && guild[id].nick == old(guild[id].nick)))
      && (VM.PassesDiscord(player, member.tag, false) ==>
        VM.LinkedOutcome(store, guild, member, cfg, account, player.value.secrets, profiles, emojis, UpdateOptions, outcome))
  {
    outcome := VM.Thrown;
    var fetched := Find(guild, targetId);
    if fetched.None? {
      return NotInServer, outcome;
    }
    var member := fetched.value;
    var record := Find(records, member.id);
    var account: VM.Account;
    if record.None? {
      var name := NameFromDisplay(member.displayName);
      if name.None? {
        return NoName, outcome;
      }
      if !(name.value in byName) {
        return UnknownName, outcome;
      }
      account := byName[name.value];
    } else {
      if !(record.value.uuid in byUuid) {
        return UuidLookupFailed, outcome;
      }
      account := byUuid[record.value.uuid];
    }
    var result := VM.Verify(store, guild, member, cfg, Some(account), player, profiles, emojis, UpdateOptions);
    outcome := result;
    r := Reply(result);
  }

  /** The four codes with their own message, and every other code falls to the default. */
  lemma SpecificMessages()
    ensures ErrorReply(VM.HypixelError) == HypixelErrorReply
    ensures ErrorReply(VM.NoDiscord) == NoDiscordReply
    ensures ErrorReply(VM.HypixelDiscordMismatch) == HypixelMismatchReply
    ensures ErrorReply(VM.MongoDiscordMismatch) == MongoMismatchReply
    ensures ErrorReply(VM.InvalidProfile) == UnknownErrorReply
  {
  }
}
