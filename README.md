# DungeonGang bot: verification engine, emote slots, polls and staff commands

This project models the core of the DungeonGang Discord bot. The bot links a
Minecraft account to a Discord member, reads the player's Hypixel SkyBlock
dungeon stats, and gives out roles from those stats: the catacombs level
role, the Top Player +/Top Player/Top Player − tiers, and the Speedrunner and
Secret Duper badges. It then sets a nickname of the form `❮L❯ name emotes`.

The model covers:

- **The verification engine** (`VerificationManager.verify`). This is its
  manual mode and its full mode:
  - the record linkage and conflict rules;
  - the stat snapshot;
  - the flag cascade;
  - the push/splice role reconciliation;
  - the symbol and nickname rule.
- **The `/verify` and `/forceverify` copies of the engine.** These are what
  the commands actually run, and they differ from the engine:
  - different thresholds;
  - no cascade;
  - an add-then-remove step that cancels a freshly added top role.
- **`/forceupdate`.** It resolves the account and maps the engine's error
  codes to replies.
- **The level table and helpers:**
  - `cataLevel` and `cataExp`;
  - profile selection;
  - `fmtMSS`;
  - the censor;
  - `validUnicode`.
- **The record constructors.**
- **The emote-slot manager** (`EmojiManager`) and the `/equip`, `/give`,
  `/take` and `/unequip` commands.
- **The poll vote state machine and `endPoll`.**
- **`/unverify` and `/fix`.**
- **The `/requirements set` editor**, with JavaScript `parseInt`.

Code that works by changing state is modelled that way:

- Discord members are a class whose `roles` and `nick` are edited.
- The record collections are objects holding a map.
- The emote manager, a poll's vote lists and the requirements table are
  classes whose methods update their fields.
- Loops become `while` loops with invariants.

Each such method is proved against a function of its inputs, and the
properties of the source are lemmas about those functions.

Several behaviours of the code as written are modelled as they are and
proved as lemmas, because they are how the bot behaves:

- the `/verify` top-role step cancels a freshly added top role;
- the `forEach`-with-`splice` loop in `/unverify` skips the role after each
  removal;
- a poll's end date is stored in seconds but compared with a millisecond
  clock;
- the `=== 0` fallback of `highestCataProfileOld` can never be reached;
- the `< 0` permission check on the end-poll button never denies.

External services become inputs:

- **Mojang.** A username lookup is an `Option<Account>`; `/forceupdate`'s two
  lookups are maps by name and by uuid.
- **Hypixel.** The player is an `Option<Player>` that keeps the shape of
  `socialMedia` (absent, or present with or without `links`). The engine
  reads `socialMedia?.links?.DISCORD ?? socialMedia?.DISCORD`. `/verify` and
  `/forceverify` read `socialMedia?.links.DISCORD`, which throws, and so
  replies with the API error, when `socialMedia` has no `links`. The profile
  fetch is a reply that can fail, not be an array, or be a list.
- **MongoDB.** A collection is a map in a store object.
- **Discord.** The guild is a map from member id to member object.
- **The clock.** It is a millisecond parameter.

The engine's `mongo.getUser(uuid)` does not exist in `src/util/Mongo.ts`. The
engine's store is therefore a map keyed by uuid, with the record's
`discordId`, `votedIn` and `votedOut` fields optional. The commands use
`getUserByDiscord`, whose collection is keyed by the Discord id (`_id`).

Numbers from the Hypixel API that the code only reads through truthiness or
`?? 0` are modelled as integers, with 0 standing for "absent". A Discord link
that is absent is the empty string. The catacombs experience and level are
exact `real`s.

## Model

| member | source | states |
|---|---|---|
| Functions.CataXpShape | src/util/Functions.ts:90-191 | the level table has 100 entries, entry i is [i, T[i]], T strictly increases, T[0] = 0 and T[99] = 10369809640 |
| Functions.CataLevel | src/util/Functions.ts:194-211 | the loop's result is the table-level function `LevelIn` of the experience |
| Functions.LevelLoop | src/util/Functions.ts:197-206 | on any table of the right shape, the walk over the entries returns `LevelIn` |
| Functions.LevelInBracket | src/util/Functions.ts:198-210 | for T[k] ≤ xp < T[k+1], the level is k plus the fraction (xp − T[k]) / (T[k+1] − T[k]) |
| Functions.LevelInBracketBounds | src/util/Functions.ts:198-210 | in bracket k the level lies in [k, k+1), so its floor is k |
| Functions.LevelInPastTable | src/util/Functions.ts:207-209 | experience at or above T[99] gives level 0 |
| Functions.LevelInNegative | src/util/Functions.ts:198-200 | negative experience reads the entry before the table and throws (no level) |
| Functions.LevelInFound | src/util/Functions.ts:199-202 | when entry j is the first above xp, the level interpolates between entries j−1 and j |
| Functions.ExpInRoundTrip | src/util/Functions.ts:217-225 | for 0 ≤ l < 99, the level of `cataExp(l)` is l again |
| Functions.ExpInAtEntry | src/util/Functions.ts:218-220 | an integer level reads its table entry |
| Functions.ExpInBetween | src/util/Functions.ts:221-224 | a fractional level interpolates linearly between its two entries |
| Functions.Decimal | src/util/Functions.ts:222 | the decimal part lies in [0, 1) and is the level minus its floor |
| Functions.LevelAtEntry | src/util/Functions.ts:198-210 | the experience of entry f (f < 99) has level exactly f |
| Functions.LevelAtShare | src/util/Functions.ts:198-224 | a fractional level survives the round trip through its experience |
| Functions.LevelAtFraction | src/util/Functions.ts:198-210 | xp in bracket f with fraction frac has level f + frac |
| Functions.CataExp | src/util/Functions.ts:217-225 | every level in [0, 99) has an experience value |
| Functions.CataExpRoundTrip | src/util/Functions.ts:194-225 | `cataLevel(cataExp(l)) = l` for 0 ≤ l < 99 on the real table |
| Functions.CataExpTopLevel | src/util/Functions.ts:218-219 | `cataExp(99)` is T[99], whose level is 0, not 99 |
| Functions.CataExpPastTable | src/util/Functions.ts:221-223 | a level above 99 reads past the table and has no experience |
| Functions.CataLevelNegative | src/util/Functions.ts:198-200 | negative experience has no level on the real table |
| Functions.CataLevelBracket | src/util/Functions.ts:198-210 | on the real table, experience in bracket k has level with floor k |
| Functions.ValidUnicode | src/util/Functions.ts:213-215 | true exactly when some character lies above U+007F |
| Functions.HighestCataProfile | src/util/Functions.ts:227-248 | there are three cases: null input gives undefined; a profile without the member entry makes the result undefined; otherwise the result is the first profile with the strictly greatest non-zero `last_save`, and it exists iff some save is non-zero. |
| Functions.HighestCataProfileOld | src/util/Functions.ts:250-271 | null input or a missing member entry gives undefined; otherwise the result is the first profile of strictly greatest positive catacombs experience, and it exists iff one has experience, so the `=== 0` fallback is never taken |
| Functions.GetProfileByName | src/util/Functions.ts:273-290 | a null or empty list gives undefined; otherwise the result is the first profile whose name matches case-insensitively, and null exactly when none matches |
| Functions.SecondsField | src/util/Functions.ts:298-299 | the seconds are two zero-padded digits |
| Functions.MillisField | src/util/Functions.ts:293-296 | milliseconds below 10 stay one digit; those from 10 up become three digits |
| Functions.FmtMSSFields | src/util/Functions.ts:292-300 | `fmtMSS(n)` is minutes, ":", padded seconds, ".", and the millisecond text |
| Functions.FmtMSSUnpaddedMillis | src/util/Functions.ts:293-296 | 5 ms is written "0:00.5", so a one-digit millisecond part stays unpadded |
| Functions.StarWord | src/util/Functions.ts:472-478 | the result is '*' repeated to the UTF-16 length of the word |
| Functions.Censor | src/util/Functions.ts:62-68 | a message containing a bypass word becomes stars of its UTF-16 length; any other message is unchanged |
| Text.StarsUtf16Length | src/util/Functions.ts:472-478 | a string of n stars has UTF-16 length n |
| Text.Utf16Length | src/util/Functions.ts:473 | JavaScript `length` counts each character once or twice |
| Text.AsciiLower | src/util/Functions.ts:282 | `toLowerCase` restricted to ASCII: A to Z become a to z, every other character is kept, and the length is kept |
| Text.ContainsAt | src/util/Functions.ts:65 | a word occurring at some index is contained |
| Text.Substitution | src/util/VerificationManager.ts:448 | the replacement text of one match brings in only characters of the pattern, the match, or the text before or after it |
| Text.SubstitutionLiteral | src/util/VerificationManager.ts:448 | a replacement string without `$` is inserted as it is |
| Text.ReplaceBrackets | src/util/VerificationManager.ts:448 | replacing ❮ and ❯, with `$$`, `$&`, `` $` `` and `$'` expanded, introduces only characters of the string or the symbol |
| Text.ReplaceBracketsMatchPattern | src/util/VerificationManager.ts:448 | the symbol "$&" puts each bracket back, so the nickname is left unchanged |
| Text.ReplaceBracketsIdentity | src/util/VerificationManager.ts:448 | a string without ❮ or ❯ is unchanged |
| Text.Split | src/commands/Staff/ForceUpdateCommand.ts:67 | `split(" ")` gives at least one part, and no part holds the separator |
| Text.SplitHasSecond | src/commands/Staff/ForceUpdateCommand.ts:67 | there is a second part iff the separator occurs |
| Text.KeepWordChars | src/commands/Staff/ForceUpdateCommand.ts:67 | `replace(/\W/g, '')` keeps exactly the word characters |
| RoleLists.RemoveFirst | src/commands/Staff/UnverifyCommand.ts:43 | for a present x, `splice(indexOf(x), 1)` removes its first occurrence and keeps the others. Every call site checks `includes` first or visits only present roles, so the `splice(-1, 1)` of an absent x is never reached; for that case the function keeps the list |
| RoleLists.RemoveFirstMultiset | src/util/PollManager.ts:348 | removing the first occurrence takes exactly one copy out of the multiset |
| RoleLists.RemoveFirstDistinct | src/util/VerificationManager.ts:372 | on a repeat-free list, splicing x out is filtering x out |
| RoleLists.FilterOut | src/util/VerificationManager.ts:491 | the filter keeps exactly the elements outside the set |
| RoleLists.AddIfAbsent | src/util/VerificationManager.ts:398-400 | an include-check push keeps the list as a prefix and adds the element to its set |
| RoleLists.Dedup | src/commands/BaseCommand.ts:59-61 | `[...new Set(a)]` has the same elements and no repeats |
| RoleLists.DedupDistinct | src/commands/BaseCommand.ts:59-61 | deduplicating a repeat-free list changes nothing |
| RoleLists.DedupKeepsPrefix | src/commands/BaseCommand.ts:59-61 | deduplicating `a + b` keeps a repeat-free `a` as a prefix |
| RoleLists.RemoveFirstSubsequence | src/commands/Staff/UnverifyCommand.ts:43 | a splice leaves a subsequence |
| Discord.Find | src/util/Mongo.ts:77-80 | a value is found iff one is filed under the key, and it is that value: a record for `getUserByDiscord`, and a guild member for `fetchMember` (`src/util/VerificationManager.ts:515-520`), whose failed fetch is undefined |
| Discord.Member.Edit | src/util/VerificationManager.ts:454-459 | `member.edit` sets the roles to the deduplicated list, and keeps, clears or sets the nickname |
| Schema.UserSchemaFresh | src/util/Schema.ts:5-17 | a new record has the given id and uuid, empty `unlocked` and `given`, exactly one slot `default: "none"`, and no `discordId` or voted flags |
| Schema.PollSchema | src/util/Schema.ts:19-28 | the end date is the creation time plus six hours, in seconds |
| Schema.PollSchemaFresh | src/util/Schema.ts:19-43 | a new poll copies the message, channel, uuid and name; it is active, has three empty vote lists, zero stats and no master-six time |
| SlotMaps.Get | src/util/EmojiManager.ts:53-55 | a slot-object read finds a value iff the key is present |
| SlotMaps.Put | src/util/EmojiManager.ts:57-62 | a slot write keeps every key in place and changes only the named entry; a new key goes at the end |
| SlotMaps.PutGet | src/util/EmojiManager.ts:57-62 | after a write the key holds the value, and every other key reads as before |
| SlotMaps.PutTwice | src/util/EmojiManager.ts:71-74 | writing the same value twice is writing it once |
| VerificationManager.ComputeFlags | src/util/VerificationManager.ts:323-366 | the step-by-step flag updates compute the flag function `EngineFlags` |
| VerificationManager.EngineFlagsCascade | src/util/VerificationManager.ts:323-356 | plus forces normal, minus excludes plus and normal, the plusReq role grants plus, and the votedOut role without plusReq denies it |
| VerificationManager.RemoveCata | src/util/VerificationManager.ts:370-374 | the splice loop over the cata roles filters every cata role out and keeps the list repeat-free |
| VerificationManager.RemoveManaged | src/util/VerificationManager.ts:368-394 | the removals leave exactly the roles outside the managed set |
| VerificationManager.PushMissing | src/util/VerificationManager.ts:398-416 | a guarded push appends the role only when the flag holds and the role is absent |
| VerificationManager.PushEarned | src/util/VerificationManager.ts:396-416 | the pushes append exactly the earned tier and badge roles |
| VerificationManager.PushLevelRole | src/util/VerificationManager.ts:419-432 | the level step appends the level role list |
| VerificationManager.ReconcileRoles | src/util/VerificationManager.ts:368-432 | removals then additions compute `FullBase` of the old roles |
| VerificationManager.EarnedMembers | src/util/VerificationManager.ts:396-416 | a role is earned iff it is a tier or badge role whose flag holds |
| VerificationManager.LevelRolesCata | src/util/VerificationManager.ts:419-432 | there is one level role iff 30 ≤ level ≤ 60, it is a cata role, and it is no tier, badge or member role |
| VerificationManager.LevelRolesChoice | src/util/VerificationManager.ts:419-432 | the level role is: cata30 for 30–34; cata35 for 35–39; for 40–60, cata35 when neither plus nor normal holds; otherwise the exact-level role; none outside 30–60. |
| VerificationManager.CataFromLevel | src/util/VerificationManager.ts:419-432 | any cata role in the output is the level role |
| VerificationManager.FullRolesEarnable | src/util/VerificationManager.ts:368-416 | a tier or badge role is in the output iff it is earned |
| VerificationManager.FullRolesOrigin | src/util/VerificationManager.ts:368-452 | every output role was held before, is managed, or is the member role |
| VerificationManager.FullRolesMembers | src/util/VerificationManager.ts:368-452 | unmanaged roles are kept; each tier and badge role is present iff its flag holds; the member role is present |
| VerificationManager.FullRolesDistinct | src/util/VerificationManager.ts:368-452 | the output of a repeat-free role list is repeat-free |
| VerificationManager.FullRolesCata | src/util/VerificationManager.ts:368-432 | the output's cata roles are exactly the level role |
| VerificationManager.FullRemovesOnlyManaged | src/util/VerificationManager.ts:368-394 | every role that `logVerification` reports removed is managed |
| VerificationManager.FullRolesKeeps | src/util/VerificationManager.ts:368-394 | an unmanaged role held before is kept |
| VerificationManager.FullRolesStable | src/util/VerificationManager.ts:368-452 | running the role computation on its own output, with the same flags and level, gives the same set and reports nothing added or removed |
| VerificationManager.EngineRolesCascade | src/util/VerificationManager.ts:323-416 | in the output, plus implies normal, minus excludes plus and normal, and the plusReq role yields plus |
| VerificationManager.ChooseSymbol | src/util/VerificationManager.ts:434-440 | the loop over `config.symbols` returns `LastSymbol` |
| VerificationManager.LastSymbolSpec | src/util/VerificationManager.ts:434-440 | no symbol iff no symbol role is held; otherwise it is the symbol of the last entry whose role is held |
| VerificationManager.ReplaceBracketsRemovesAll | src/util/VerificationManager.ts:448 | with a symbol free of brackets and of `$`, no ❮ or ❯ is left |
| VerificationManager.NicknameShape | src/util/VerificationManager.ts:447-448 | without a symbol the nickname starts "❮L❯ "; with a truthy symbol free of brackets and of `$` it has no ❮ or ❯ |
| VerificationManager.AddManualRoles | src/util/VerificationManager.ts:135-149 | manual mode's pushes compute `ManualRoles` |
| VerificationManager.ManualOnlyAdds | src/util/VerificationManager.ts:135-149 | manual mode keeps the old roles as a prefix; it adds only cata30 (30–34) or cata35 (≥ 35) and the member role; it removes nothing and keeps the list repeat-free |
| VerificationManager.Linkage | src/util/VerificationManager.ts:223-254 | there are four outcomes: no record means insert; an open or own record is claimed; another live owner is a conflict unless overridden. another owner who no longer fetches is unclaimed. |
| VerificationManager.Link | src/util/VerificationManager.ts:90-119 | the store and the linked record follow `Linkage`; no record is returned exactly on a conflict |
| VerificationManager.ResetMember | src/util/VerificationManager.ts:241-246 | a manageable previous owner gets the deduplicated `fixRoles` and no nickname; any other is untouched |
| VerificationManager.InsertedRecordIsOpen | src/util/VerificationManager.ts:225-227 | a record that `verify` inserts has no `discordId`, so the next verifier, of any id, claims it without a conflict |
| VerificationManager.LinkedUserNamesMember | src/util/VerificationManager.ts:228-253 | a claimed or taken-over record names the member and differs from the stored one only in `discordId` |
| VerificationManager.PickProfile | src/util/VerificationManager.ts:259-271 | a named profile that does not match is reported missing; a picked profile is the named or latest one and holds the member |
| VerificationManager.SelectStats | src/util/VerificationManager.ts:259-305 | the cases are: a failed fetch is a request failure; a non-array fetch gives the zero stats with the player's secrets; a missing name is reported; stats come from the picked profile, or the code throws when its member data is absent. |
| VerificationManager.Verify | src/util/VerificationManager.ts:59-486 | an unknown username fails first with nothing changed. Manual mode runs only for `bypassApi === false`, where a falsy level fails as missing and one outside 0..60 as invalid. Otherwise come the Hypixel, Discord-link and linkage rules. Every refused level, a missing player, a missing Discord link and a tag mismatch leave the collection and every guild member's roles and nickname unchanged |
| VerificationManager.ManualPath | src/util/VerificationManager.ts:75-191 | a zero level and an out-of-range level fail before any write; a level in 1..60 gets the manual outcome |
| VerificationManager.ManualLinked | src/util/VerificationManager.ts:90-172 | a conflict changes nothing; otherwise the record is saved and the member gets the manual roles and nickname |
| VerificationManager.ManualApply | src/util/VerificationManager.ts:121-172 | the voted flags are saved, and the member's roles are the manual roles |
| VerificationManager.ManualEdit | src/util/VerificationManager.ts:135-172 | the member's roles and nickname become the manual ones; the nickname is set only when the member is manageable |
| VerificationManager.FullPath | src/util/VerificationManager.ts:193-486 | these check the player: no player is a Hypixel error; a missing link and a tag mismatch are rejected unless bypassed, with nothing changed; the rest follows the linkage outcome. |
| VerificationManager.AfterChecks | src/util/VerificationManager.ts:223-486 | a linkage conflict changes nothing, but the previous owner may already have been reset. Profile failures return before the record is saved. A success saves the record and sets the engine roles and nickname |
| VerificationManager.Finish | src/util/VerificationManager.ts:259-486 | Hypixel error iff the fetch failed; only Hypixel and invalid-profile failures; nothing written on a failure; a success writes the stats-derived roles, nickname and record |
| VerificationManager.Apply | src/util/VerificationManager.ts:307-459 | the record is saved with the voted flags, and the member gets the engine roles and nickname |
| VerificationManager.EngineEdit | src/util/VerificationManager.ts:323-452 | the role list and nickname handed to `member.edit` are the engine's |
| VerifyCommand.ComputeTiers | src/commands/Hypixel/VerifyCommand.ts:127-158 | the flag updates compute the command's tier function |
| VerifyCommand.TiersExclusive | src/commands/Hypixel/VerifyCommand.ts:127-158 | at most one tier holds, the plusReq role grants plus, and the votedOut role without plusReq denies it |
| VerifyCommand.ThresholdsDiffer | src/commands/Hypixel/VerifyCommand.ts:127-158 | there are stats on which the command and the engine disagree on plus and on normal |
| VerifyCommand.PushTiers | src/commands/Hypixel/VerifyCommand.ts:160-170 | the pushes compute `Pushes` |
| VerifyCommand.PushesMembers | src/commands/Hypixel/VerifyCommand.ts:160-170 | after the pushes the list has the old roles and the flagged tier roles, without repeats |
| VerifyCommand.RemoveTop | src/commands/Hypixel/VerifyCommand.ts:178-184 | the else-if chain removes `TopDropped`, the first present of plus, normal and minus |
| VerifyCommand.TopDroppedFilter | src/commands/Hypixel/VerifyCommand.ts:178-184 | that removal filters out the dropped role and keeps the list repeat-free |
| VerifyCommand.CommandMembers | src/commands/Hypixel/VerifyCommand.ts:160-214 | a role is in the output iff it is the member role, the level role, or a pushed non-cata role that the top step did not drop |
| VerifyCommand.CommandTopRoles | src/commands/Hypixel/VerifyCommand.ts:160-184 | plus is never in the output; normal is there iff plus and normal were both there or flagged; minus is there iff it was and some higher tier was too |
| VerifyCommand.TopRoleCancelled | src/commands/Hypixel/VerifyCommand.ts:127-184 | starting from no top role, the output has no top role, whatever the stats |
| VerifyCommand.CommandKeeps | src/commands/Hypixel/VerifyCommand.ts:160-214 | a role outside the cata, tier and member roles is kept iff it was held |
| VerifyCommand.BadgesUntouched | src/commands/Hypixel/VerifyCommand.ts:160-214 | Speedrunner and Secret Duper are never added or removed |
| VerifyCommand.CommandCata | src/commands/Hypixel/VerifyCommand.ts:172-214 | the member role is present and the output's cata roles are exactly the level role |
| VerifyCommand.CommandRolesDistinct | src/commands/Hypixel/VerifyCommand.ts:160-214 | the output is repeat-free |
| VerifyCommand.PlainNicknameShape | src/commands/Hypixel/VerifyCommand.ts:209-210 | without a symbol the nickname is "❮L❯ name", with no emotes; with a truthy symbol free of brackets and of `$` it has no brackets |
| VerifyCommand.EditMember | src/commands/Hypixel/VerifyCommand.ts:201-219 | the member gets the command's roles, and its nickname when manageable |
| VerifyCommand.Registered | src/commands/Hypixel/VerifyCommand.ts:80-87 | an existing record is written back unchanged, with no uuid update or conflict check; a missing one is inserted from `userSchema` |
| VerifyCommand.Register | src/commands/Hypixel/VerifyCommand.ts:80-87 | the collection becomes `Registered` |
| VerifyCommand.CommandTag | src/commands/Hypixel/VerifyCommand.ts:44-56 | the command's reading of the Discord tag is missing exactly when the request failed or `socialMedia` exists without `links`, where `links.DISCORD` throws |
| VerifyCommand.CommandTagAgrees | src/commands/Hypixel/VerifyCommand.ts:48 | whenever the command's reading does not throw, it gives the engine's tag |
| VerifyCommand.CommandTagThrowsWithoutLinks | src/commands/Hypixel/VerifyCommand.ts:48 | for `socialMedia = {DISCORD: tag}` the engine reads the tag but the command's read throws |
| VerifyCommand.Execute | src/commands/Hypixel/VerifyCommand.ts:34-219 | an unknown user, a failed player request or a throwing Discord read (an API error), a missing link and a tag mismatch are refused before any store access. Otherwise the record is registered, and a failed profile fetch is an API error. Success uses the latest-saved profile and the command's roles and nickname |
| VerifyCommand.Finish | src/commands/Hypixel/VerifyCommand.ts:92-219 | after registration: a failed fetch is an API error; the stats come from the latest-saved profile; on success the member gets the command's roles and nickname |
| ForceVerifyCommand.OverrideUsed | src/commands/Staff/ForceVerifyCommand.ts:199-219 | a supplied level replaces the computed one (0 when no profile exists); without one the computed stats stand |
| ForceVerifyCommand.OverrideOutOfBand | src/commands/Staff/ForceVerifyCommand.ts:199-293 | an override outside 30..60 is not range-checked and leaves no cata role |
| ForceVerifyCommand.Execute | src/commands/Staff/ForceVerifyCommand.ts:64-313 | an unknown user and an absent member are refused. Manual mode is used when `api_check` is false. The full path registers first, then applies the player and Discord-read rules (a throwing read is an API error), the Discord-link rules (bypassable) and the profile rules with the level override. No other member changes |
| ForceVerifyCommand.Manual | src/commands/Staff/ForceVerifyCommand.ts:80-139 | a missing or zero level and one outside 0..60 are refused with nothing changed; otherwise the record is registered and the manual roles and plain nickname are set |
| ForceVerifyCommand.Full | src/commands/Staff/ForceVerifyCommand.ts:141-313 | the record is registered even when the Discord checks then reject, and `bypass_discord` skips both checks |
| ForceVerifyCommand.FullFinish | src/commands/Staff/ForceVerifyCommand.ts:187-313 | the profile, override and role steps after the Discord checks pass; a fetch failure is an API error and success sets the command roles and nickname |
| ForceUpdateCommand.NameFromDisplay | src/commands/Staff/ForceUpdateCommand.ts:67 | a name exists iff the display name has a space, and it holds word characters only |
| ForceUpdateCommand.NameOfLevelledDisplay | src/commands/Staff/ForceUpdateCommand.ts:67 | "❮L❯ name" yields the word characters of name |
| ForceUpdateCommand.ErrorReply | src/commands/Staff/ForceUpdateCommand.ts:102-124 | the generic reply is given exactly for codes other than the four with their own message |
| ForceUpdateCommand.SpecificMessages | src/commands/Staff/ForceUpdateCommand.ts:102-124 | HYPIXEL_ERROR, NO_DISCORD, HYPIXEL_DISCORD_MISMATCH and MONGO_DISCORD_MISMATCH each get their own reply, and INVALID_PROFILE falls to the default |
| ForceUpdateCommand.Execute | src/commands/Staff/ForceUpdateCommand.ts:40-140 | the account comes from the stored uuid when a record exists, and otherwise from the display name, with each failure refused and nothing changed. `verify` then runs the full path only, so INVALID_USERNAME never comes back. When the engine stops at HYPIXEL_ERROR, NO_DISCORD or HYPIXEL_DISCORD_MISMATCH, the collection and the guild are unchanged |
| EmojiManager.MilestoneEmotesMembers | src/util/EmojiManager.ts:116-130 | an emote is available iff some milestone it belongs to qualifies: its role is held, and so is its required role when one is set |
| EmojiManager.SlotsForShape | src/util/EmojiManager.ts:132-142 | the available slots are "default" first, then the slot of each held unlock role, all "none" and with unique keys |
| EmojiManager.SlotsForNone | src/util/EmojiManager.ts:132-142 | with no unlock role held there is only `default: "none"` |
| EmojiManager.MergedSlotsSpec | src/util/EmojiManager.ts:144-151 | a merged key keeps the stored value when it is both stored and available, and the available value otherwise |
| EmojiManager.MergedKeysUnique | src/util/EmojiManager.ts:144-151 | the merge has exactly the available keys, in order, and unique |
| EmojiManager.WithoutLockedSpec | src/util/EmojiManager.ts:100-106 | pruning keeps the keys; every slot then holds "none" or an owned emote |
| EmojiManager.OwnedEmotesSpec | src/util/EmojiManager.ts:25 | the emotes are `given` followed by the qualifying milestone emotes, deduplicated, with `given` as a prefix |
| EmojiManager.UpdatedSlotsSpec | src/util/EmojiManager.ts:20-31 | after `update` the slots have the available keys and hold "none" or owned emotes; a stored, still-available, owned value is kept |
| EmojiManager.FreshRecordSlots | src/util/EmojiManager.ts:20-31 | a new record without unlock roles ends with only `default: "none"` |
| EmojiManager.EmojiInSlot | src/util/EmojiManager.ts:53-55 | a slot's emote exists iff the slot exists and is not "none" |
| EmojiManager.SlotName | src/util/EmojiManager.ts:92-94 | slot i is the i-th key, 1-based, and undefined outside 1..#keys |
| EmojiManager.SlotIndexOfName | src/util/EmojiManager.ts:92-98 | `getSlotIndex(getSlotName(i)) = i`; the index is 0 iff the key is absent |
| EmojiManager.RenderedEmpty | src/util/EmojiManager.ts:108-110 | slots all "none" render as "" |
| EmojiManager.EquippedSpec | src/util/EmojiManager.ts:57-62 | equip keeps the keys. It changes only the named slot, and only when that slot exists and the emote passes `validUnicode` |
| EmojiManager.UnequippedSpec | src/util/EmojiManager.ts:71-74 | unequip keeps the keys, sets an existing slot to "none", changes no other slot, and is idempotent |
| EmojiManager.GivenSpec | src/util/EmojiManager.ts:41-45 | giving keeps `given` as a prefix and repeat-free, and adds the emote iff it is valid |
| EmojiManager.TakenSpec | src/util/EmojiManager.ts:47-51 | taking a valid emote removes it and keeps the rest in order |
| EmojiManager.SlotHoldingSpec | src/util/EmojiManager.ts:83-90 | the slot found is the first in key order that holds the emote, and there is none iff no slot holds it |
| EmojiManager.Manager.constructor | src/util/EmojiManager.ts:13-18 | a new manager has no emotes, no slots and no user |
| EmojiManager.Manager.AvailableEmotes | src/util/EmojiManager.ts:116-130 | the loop computes the milestone emotes the member qualifies for |
| EmojiManager.Manager.AvailableSlots | src/util/EmojiManager.ts:132-142 | the loop computes the available slots |
| EmojiManager.Manager.MergeSlots | src/util/EmojiManager.ts:144-151 | the loop computes `MergedSlots` |
| EmojiManager.Manager.RemoveLockedEmotes | src/util/EmojiManager.ts:100-106 | the slots become `WithoutLocked` of the owned emotes, and nothing else changes |
| EmojiManager.Manager.Update | src/util/EmojiManager.ts:20-31 | with no record nothing is set; otherwise emotes, slots and user are set, and the user's slots are the manager's slots |
| EmojiManager.Manager.Sync | src/util/EmojiManager.ts:33-39 | the user record is written back when there is one, and nothing is written otherwise |
| EmojiManager.Manager.GiveEmote | src/util/EmojiManager.ts:41-45 | only the user's `given` list changes, to `Given` |
| EmojiManager.Manager.TakeEmote | src/util/EmojiManager.ts:47-51 | only the user's `given` list changes, to `Taken` |
| EmojiManager.Manager.Equip | src/util/EmojiManager.ts:57-62 | the slots become `Equipped`, and the user's slots follow because they are the same object |
| EmojiManager.Manager.Unequip | src/util/EmojiManager.ts:71-74 | the slots become `Unequipped`, and the user's slots follow |
| EmojiManager.Manager.GetSlotFromEmote | src/util/EmojiManager.ts:83-90 | the loop returns `SlotHolding` |
| EquipCommand.Decide | src/commands/Emote/EquipCommand.ts:65-101 | the guard chain after syncing gives `Decision` and changes nothing |
| EquipCommand.Execute | src/commands/Emote/EquipCommand.ts:34-111 | a non-unicode emote and a caller without a record are refused before any write. Then the record is synced, and only a successful equip changes the named slot |
| EquipCommand.EquipChangesNamedSlotOnly | src/commands/Emote/EquipCommand.ts:95-109 | a successful equip puts the emote in the named slot, keeps the keys and leaves every other slot |
| EquipCommand.AlreadyEquippedNamesHoldingSlot | src/commands/Emote/EquipCommand.ts:87-93 | the 1-based number reported for an equipped emote names the slot that holds it |
| GiveCommand.Execute | src/commands/Emote/GiveCommand.ts:33-92 | these are refused: a non-unicode emote; a target outside the guild; a target without a record; an emote already in `given`. A success stores the synced record with the emote given |
| GiveCommand.GaveAppends | src/commands/Emote/GiveCommand.ts:75-84 | a successful give appends the emote to `given`, keeps it repeat-free, and leaves the synced slots |
| TakeCommand.Execute | src/commands/Emote/TakeCommand.ts:34-99 | these are refused: a non-unicode emote; a target outside the guild; a target without a record; an emote not in `given`. A success stores the synced record with the emote taken |
| TakeCommand.TakenSlotsSpec | src/commands/Emote/TakeCommand.ts:84-90 | the first slot holding the emote becomes "none" and the other slots are unchanged |
| TakeCommand.TookRemoves | src/commands/Emote/TakeCommand.ts:84-92 | after a take the emote is out of `given`, its slot is emptied, and the other slots are kept |
| TakeCommand.ValidIsTruthy | src/commands/Emote/TakeCommand.ts:86-89 | a valid emote is a truthy string |
| UnequipCommand.Execute | src/commands/Emote/UnequipCommand.ts:27-74 | a caller without a record is refused with nothing changed; otherwise the record is synced, and only a successful unequip empties the named slot |
| UnequipCommand.UnequipEmptiesNamedSlot | src/commands/Emote/UnequipCommand.ts:49-67 | a successful unequip hits a slot that held an emote, sets it to "none", keeps the keys and leaves the other slots |
| PollManager.Others | src/util/PollManager.ts:345-423 | each button looks in the two other lists |
| PollManager.VotedCounts | src/util/PollManager.ts:345-423 | the user's count in each list after a press: moved from the first or second other list, added, or removed |
| PollManager.VoteToggles | src/util/PollManager.ts:345-423 | with at most one vote, a press puts the user in the pressed list iff they were not in it, and in no other list |
| PollManager.VoteKeepsSingleVote | src/util/PollManager.ts:345-423 | a user with at most one vote keeps at most one; none exactly when they pressed their own button |
| PollManager.VoteKeepsOtherVoters | src/util/PollManager.ts:347-420 | every list, read without the pressing user, is unchanged, so other voters keep their entries and order |
| PollManager.VotedTallyShape | src/util/PollManager.ts:347-420 | each list is kept, loses the user's first entry, or gains the user at the end |
| PollManager.VoteTwiceFromNone | src/util/PollManager.ts:359-421 | from no vote, pressing the same button twice restores the lists |
| PollManager.Ballot.constructor | src/util/PollManager.ts:343 | the ballot holds the poll's votes |
| PollManager.Ballot.Press | src/util/PollManager.ts:345-423 | the splices and pushes compute `Voted`, and the reply is `VoteOutcome` |
| PollManager.PermissionLevel | src/index.ts:49-58 | the level is always 0, 1 or 2 |
| PollManager.Closed | src/util/Mongo.ts:105-108 | an ended poll is inactive, has its end date set to now in seconds, and is otherwise unchanged |
| PollManager.EndPoll | src/util/PollManager.ts:203-224 | a missing poll and an inactive poll are refused with nothing changed; otherwise the poll is closed, so a second call is refused |
| PollManager.OnInteraction | src/util/PollManager.ts:330-438 | a missing poll is refused. A vote is recorded even on an ended poll. The end button always ends the poll, since the `< 0` check never denies, and does not write the votes. Any other button writes nothing |
| PollManager.FreshPollExpiresAtOnce | src/util/PollManager.ts:26 | a poll created after the first 21.622 s of the epoch counts as expired at the poller's first look, because seconds are compared with milliseconds |
| UnverifyCommand.SweepRoles | src/commands/Staff/UnverifyCommand.ts:41-45 | the `forEach` with `splice` leaves `Swept` of the roles |
| UnverifyCommand.SweptKeepsFixRoles | src/commands/Staff/UnverifyCommand.ts:41-45 | no `fixRoles` role is removed |
| UnverifyCommand.SweptIsSubsequence | src/commands/Staff/UnverifyCommand.ts:41-45 | the result is a subsequence of the original |
| UnverifyCommand.SweptSkipsSecond | src/commands/Staff/UnverifyCommand.ts:41-45 | two non-fix roles [a, b] become [b], because the role after a removal is not visited |
| UnverifyCommand.SweptDistinct | src/commands/Staff/UnverifyCommand.ts:41-45 | a repeat-free list stays repeat-free |
| UnverifyCommand.RemoveFirstAt | src/commands/Staff/UnverifyCommand.ts:43 | on a repeat-free list, `splice(indexOf(roles[k]), 1)` removes index k |
| UnverifyCommand.Execute | src/commands/Staff/UnverifyCommand.ts:26-61 | an absent member is refused with nothing changed. Otherwise the record is deleted when one exists, the roles become the swept list, and a manageable member's nickname is cleared. No other member changes |
| FixCommand.DedupAppend | src/commands/Staff/FixCommand.ts:39 | deduplicating `a + b` for a repeat-free `a` is `a` then the new elements of `b`, in order |
| FixCommand.FixedSpec | src/commands/Staff/FixCommand.ts:37-39 | the original roles come first, in order; every missing `fixRoles` id follows in config order; the result is the union without repeats |
| FixCommand.FixedIdempotent | src/commands/Staff/FixCommand.ts:39 | fixing a fixed member changes nothing |
| FixCommand.Execute | src/commands/Staff/FixCommand.ts:26-49 | an absent member is refused; otherwise only the roles change, to the fixed list, and the nickname is untouched |
| RequirementsCommand.TrimStart | src/commands/Staff/Config/RequirementsCommand.ts:247 | `parseInt` skips leading white space |
| RequirementsCommand.DigitRun | src/commands/Staff/Config/RequirementsCommand.ts:247 | the run is the longest prefix of digits of the radix |
| RequirementsCommand.ValueOfNatToString | src/commands/Staff/Config/RequirementsCommand.ts:247 | decimal digits read back as their number |
| RequirementsCommand.ReadDigitsOfNat | src/commands/Staff/Config/RequirementsCommand.ts:247 | the digits of m followed by a non-digit read back as m |
| RequirementsCommand.ParseIntDigitFirst | src/commands/Staff/Config/RequirementsCommand.ts:247 | a string starting with a digit is read as it stands |
| RequirementsCommand.ParseIntMinus | src/commands/Staff/Config/RequirementsCommand.ts:247 | behind a minus sign the digits are read and negated |
| RequirementsCommand.ParseIntPrefix | src/commands/Staff/Config/RequirementsCommand.ts:247-258 | an integer followed by a non-digit, such as "12s", parses to that integer |
| RequirementsCommand.ReadDigitsHex | src/commands/Staff/Config/RequirementsCommand.ts:247 | behind "0x" the digits are read in radix 16 |
| RequirementsCommand.ParseIntBareHexPrefix | src/commands/Staff/Config/RequirementsCommand.ts:247-255 | "0x" with no digit after it is NaN |
| RequirementsCommand.AssignedOnlyField | src/commands/Staff/Config/RequirementsCommand.ts:238-258 | the assignment sets that field and keeps every role, every field name and every other value |
| RequirementsCommand.Requirements.constructor | src/commands/Staff/Config/RequirementsCommand.ts:163 | the editor holds the configured table |
| RequirementsCommand.Requirements.Set | src/commands/Staff/Config/RequirementsCommand.ts:155-264 | the reply is `Decision`: an unknown role throws; an undefined field is refused; "none" in any case clears the field to null; NaN is refused; otherwise the field becomes `parseInt(value)`. Only a clear or a set changes the table |
| RequirementsCommand.ClearedCanBeSet | src/commands/Staff/Config/RequirementsCommand.ts:226-258 | a cleared field is null, not undefined, so it can be set to any integer again |

## Left out

- I/O is left out: Discord replies, embeds, channel sends and poll-message edits. So are the `logVerification` embed and the reason strings of `member.edit`. Only the role diff of `logVerification` is kept (`RolesAdded`, `RolesRemoved`).
- Mojang, Hypixel and MongoDB are inputs, not calls. A lookup's result is an `Option` or a reply value, and a collection is a map. The Mojang cache in `src/util/Functions.ts:6-51` is not modelled.
- The engine calls a `mongo.getUser(uuid)` that `src/util/Mongo.ts` does not define. Its store is therefore keyed by uuid, separately from the commands' collection keyed by Discord id.
- Concurrency is not modelled: un-awaited writes, the `setInterval` poller and races between commands. Every command runs sequentially.
- Inside the engine, the rendered `EmojiManager` string is an input of `Verify`. The manager itself is modelled on its own. The engine's `manager.update()` and `manager.sync()` (`src/util/VerificationManager.ts:442-444`, and the same calls on the manual path) also write the emote record back to the collection keyed by Discord id; that write is not part of the modelled effect of `Verify`.
- Floating point is modelled as exact `real` arithmetic. JavaScript double rounding and `toFixed` are not modelled.
- JavaScript object key order is taken as insertion order. This holds for slot names and symbol keys that are not integer-like; the cata keys are integer-like and are kept in ascending order.
- Discord's 32-character nickname limit is not modelled, nor is a failing `member.edit` or `fetch`.
- A role list is repeat-free, as `arrayRoleIds` builds it from a Collection. The commands require this of their member. `member.edit` is modelled as deduplicating the list it receives.
- The censor's word list is a parameter, and its contents are not reproduced.
- `/forceupdate` resolves its member with `fetchMember` from the guild map. Discord's own member lookup and its errors are not modelled.
- `PollManager.create`, `getPoll`, `getPolls`, the poll display commands and `autocomplete` in `RequirementsCommand` are presentation. They are not modelled.
- The `view` sub-command of `/requirements` only formats text, so it is not modelled.
- `EmojiManager.getEmoteByName` is not defined in the manager's source file. The two emotes that `/equip` compares are inputs.
- CataCommand, CalcCommand, ScanCommand, PunishCommand, PunishmentManager, PetCommand and the event handlers are not part of this model.
- Discord.Member: `displayName` is an independent input of each member. In discord.js it is the nickname when one is set and the account name otherwise; the model does not tie it to `nick`. So `ForceUpdateCommand.NameOfLevelledDisplay` is stated for any display name of the form "prefix name", not derived from the "❮L❯ name" nickname that /verify sets.
- ForceUpdateCommand.Execute: the engine's outcome is returned as a ghost out-parameter, and the reply is stated as a function of it.
- RequirementsCommand.Requirements.Set: `parseInt` is modelled for radix 10 and the "0x" prefix. Digits beyond the precision of a double are read exactly.
- Text.AsciiLower / Functions.GetProfileByName: case folding is ASCII only. JavaScript's `toLowerCase` lowers every Unicode letter and can change the length ("İ" becomes two code points), so a profile name that matches only under Unicode folding, such as the Kelvin sign against "k" or "É" against "é", is reported as no such profile. `RequirementsCommand.Decision` is not affected: no non-ASCII character lowers to the characters of "none" or to the digits, the hex letters a to f, "x", the minus sign and white space that `parseInt` looks at.
