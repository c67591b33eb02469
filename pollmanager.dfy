/**
 * `PollManager`: the buttons under a top-player poll (three vote lists changed
 * in place), ending a poll, and the poller's expiry test.
 */
module PollManager {
  import opened Wrappers
  import opened RoleLists
  import opened Schema
  import opened Discord

  /** The three voting buttons. */
  datatype Choice = Positive | Neutral | Negative

  /** A button press on a poll message, by its custom id. */
  datatype Button = VoteButton(choice: Choice) | EndPollButton | OtherButton(customId: string)

  /** The `customId` strings of the buttons. */
  function ButtonOf(customId: string): Button
  {
    if customId == "POSITIVE_VOTE" then VoteButton(Positive)
    else if customId == "NEUTRAL_VOTE" then VoteButton(Neutral)
    else if customId == "NEGATIVE_VOTE" then VoteButton(Negative)
    else if customId == "END_POLL" then EndPollButton
    else OtherButton(customId)
  }

  function Tally(v: Votes, c: Choice): seq<string>
  {
    match c
    case Positive => v.positive
    case Neutral => v.neutral
    case Negative => v.negative
  }

  function WithTally(v: Votes, c: Choice, l: seq<string>): (w: Votes)
    ensures Tally(w, c) == l
    ensures forall d :: d != c ==> Tally(w, d) == Tally(v, d)
  {
    match c
    case Positive => v.(positive := l)
    case Neutral => v.(neutral := l)
    case Negative => v.(negative := l)
  }

  /**
   * The two other lists a press of `c` looks in, in the order it looks:
   * 👍 checks 👎 then 🤐, 🤐 checks 👎 then 👍, 👎 checks 👍 then 🤐.
   */
  function Others(c: Choice): (o: (Choice, Choice))
    ensures o.0 != c && o.1 != c && o.0 != o.1
  {
    match c
    case Positive => (Negative, Neutral)
    case Neutral => (Negative, Positive)
    case Negative => (Positive, Neutral)
  }

  /** The votes after `user` presses `c`. */
  function Voted(v: Votes, user: string, c: Choice): Votes
  {
    var (first, second) := Others(c);
    if user in Tally(v, first) then
      WithTally(WithTally(v, first, RemoveFirst(Tally(v, first), user)), c, Tally(v, c) + [user])
    else if user in Tally(v, second) then
      WithTally(WithTally(v, second, RemoveFirst(Tally(v, second), user)), c, Tally(v, c) + [user])
    else if user !in Tally(v, c) then WithTally(v, c, Tally(v, c) + [user])
    else WithTally(v, c, RemoveFirst(Tally(v, c), user))
  }

  /** The reply to a vote: changed from one list to another, recorded, or removed. */
  datatype VoteReply = Changed(from: Choice, to: Choice) | Recorded(choice: Choice) | Removed(choice: Choice)

  function VoteOutcome(v: Votes, user: string, c: Choice): VoteReply
  {
    var (first, second) := Others(c);
    if user in Tally(v, first) then Changed(first, c)
    else if user in Tally(v, second) then Changed(second, c)
    else if user !in Tally(v, c) then Recorded(c)
    else Removed(c)
  }

  /** How often `user` occurs across the three lists. */
  function Count(v: Votes, user: string): nat
  {
    multiset(v.positive)[user] + multiset(v.neutral)[user] + multiset(v.negative)[user]
  }

  lemma CountTally(v: Votes, user: string)
    ensures Count(v, user) == multiset(Tally(v, Positive))[user] + multiset(Tally(v, Neutral))[user] + multiset(Tally(v, Negative))[user]
    ensures forall c :: user in Tally(v, c) <==> multiset(Tally(v, c))[user] > 0
  {
  }

  /** How often `user` occurs in each list after pressing `c`. */
  lemma VotedCounts(v: Votes, user: string, c: Choice, d: Choice)
    ensures var (first, second) := Others(c);
      multiset(Tally(Voted(v, user, c), d))[user] ==
        if user in Tally(v, first) then
          (if d == first then multiset(Tally(v, d))[user] - 1 else if d == c then multiset(Tally(v, d))[user] + 1 else multiset(Tally(v, d))[user])
        else if user in Tally(v, second) then
          (if d == second then multiset(Tally(v, d))[user] - 1 else if d == c then multiset(Tally(v, d))[user] + 1 else multiset(Tally(v, d))[user])
        else if user !in Tally(v, c) then
          (if d == c then 1 else 0)
        else
          (if d == c then multiset(Tally(v, d))[user] - 1 else 0)
  {
    var (first, second) := Others(c);
    RemoveFirstMultiset(Tally(v, d), user);
    assert multiset(Tally(v, d) + [user]) == multiset(Tally(v, d)) + multiset{user};
  }

  /**
   * With the user voting at most once, pressing `c` puts them in `c`'s list
   * exactly when they were not in it, and in no other list: a vote elsewhere is
   * moved, and a second press of the same button withdraws the vote.
   */
  lemma VoteToggles(v: Votes, user: string, c: Choice, d: Choice)
    requires Count(v, user) <= 1
    ensures user in Tally(Voted(v, user, c), c) <==> user !in Tally(v, c)
    ensures d != c ==> user !in Tally(Voted(v, user, c), d)
  {
    CountTally(v, user);
    CountTally(Voted(v, user, c), user);
    VotedCounts(v, user, c, c);
    VotedCounts(v, user, c, d);
  }

  /** A user who voted at most once still has at most one vote, none exactly when they pressed their own button. */
  lemma VoteKeepsSingleVote(v: Votes, user: string, c: Choice)
    requires Count(v, user) <= 1
    ensures Count(Voted(v, user, c), user) == if user in Tally(v, c) then 0 else 1
  {
    CountTally(v, user);
    CountTally(Voted(v, user, c), user);
    VotedCounts(v, user, c, Positive);
    VotedCounts(v, user, c, Neutral);
    VotedCounts(v, user, c, Negative);
  }

  /** A vote touches only the pressing user's entries: every list, read without them, is unchanged. */
  lemma VoteKeepsOtherVoters(v: Votes, user: string, c: Choice, d: Choice)
    ensures FilterOut(Tally(Voted(v, user, c), d), {user}) == FilterOut(Tally(v, d), {user})
  {
    var l := Tally(v, d);
    var after := Tally(Voted(v, user, c), d);
    VotedTallyShape(v, user, c, d);
    if after == RemoveFirst(l, user) {
      FilterOutRemoveFirst(l, user);
    } else if after == l + [user] {
      FilterOutAppend(l, [user], {user});
      assert FilterOut([user], {user}) == [];
    }
  }

  /** Each list is kept, loses its first `user`, or gains one at the end. */
  lemma VotedTallyShape(v: Votes, user: string, c: Choice, d: Choice)
    ensures var after := Tally(Voted(v, user, c), d);
      after == Tally(v, d) || after == RemoveFirst(Tally(v, d), user) || after == Tally(v, d) + [user]
  {
  }

  /** From no vote, pressing the same button twice restores the lists exactly. */
  lemma VoteTwiceFromNone(v: Votes, user: string, c: Choice)
    requires user !in v.positive && user !in v.neutral && user !in v.negative
    ensures Voted(Voted(v, user, c), user, c) == v
  {
    var w := Voted(v, user, c);
    assert w == WithTally(v, c, Tally(v, c) + [user]);
    RemoveFirstAppended(Tally(v, c), user);
    assert Voted(w, user, c) == WithTally(w, c, Tally(v, c));
  }

  /** The `votes` object of a poll, whose three arrays a button press changes in place. */
  class Ballot {
    var positive: seq<string>
    var neutral: seq<string>
    var negative: seq<string>

    function Current(): Votes
      reads this
    {
      Votes(positive, neutral, negative)
    }

    constructor(v: Votes)
      ensures Current() == v
    {
      positive := v.positive;
      neutral := v.neutral;
      negative := v.negative;
    }

    /** One branch of the `switch (interaction.customId)` for a voting button. */
    method Press(user: string, c: Choice) returns (r: VoteReply)
      modifies this
      ensures Current() == Voted(old(Current()), user, c)
      ensures r == VoteOutcome(old(Current()), user, c)
    {
      match c {
        case Positive =>
          if user in negative {
            negative := RemoveFirst(negative, user);
            positive := positive + [user];
            r := Changed(Negative, Positive);
          } else if user in neutral {
            neutral := RemoveFirst(neutral, user);
            positive := positive + [user];
            r := Changed(Neutral, Positive);
          } else if !(user in positive) {
            positive := positive + [user];
            r := Recorded(Positive);
          } else {
            positive := RemoveFirst(positive, user);
            r := Removed(Positive);
          }
        case Neutral =>
          if user in negative {
            negative := RemoveFirst(negative, user);
            neutral := neutral + [user];
            r := Changed(Negative, Neutral);
          } else if user in positive {
            positive := RemoveFirst(positive, user);
            neutral := neutral + [user];
            r := Changed(Positive, Neutral);
          } else if !(user in neutral) {
            neutral := neutral + [user];
            r := Recorded(Neutral);
          } else {
            neutral := RemoveFirst(neutral, user);
            r := Removed(Neutral);
          }
        case Negative =>
          if user in positive {
            positive := RemoveFirst(positive, user);
            negative := negative + [user];
            r := Changed(Positive, Negative);
          } else if user in neutral {
            neutral := RemoveFirst(neutral, user);
            negative := negative + [user];
            r := Changed(Neutral, Negative);
          } else if !(user in negative) {
            negative := negative + [user];
            r := Recorded(Negative);
          } else {
            negative := RemoveFirst(negative, user);
            r := Removed(Negative);
          }
      }
    }
  }

  /** What the pressing member is to `getPermissionLevel`: absent, or their manager, administrator and staff standing. */
  datatype Standing = Standing(manager: bool, administrator: bool, staff: bool)

  /** `getPermissionLevel(member)`: 2 for managers and administrators, 1 for staff, else 0. */
  function PermissionLevel(member: Option<Standing>): (level: int)
    ensures 0 <= level <= 2
  {
    match member
    case None => 0
    case Some(m) => if m.manager || m.administrator then 2 else if m.staff then 1 else 0
  }

  /** The result of `endPoll(id)`. */
  datatype EndReply = PollNotFound | PollNotActive | PollEnded

  /** A poll as `mongo.endPoll` leaves it, at `nowMs` milliseconds: inactive, ended now, in seconds. */
  function Closed(p: PollRecord, nowMs: int): (q: PollRecord)
    ensures !q.active && q.endDate * 1000.0 == nowMs as real
    ensures q.(active := p.active, endDate := p.endDate) == p
  {
    p.(active := false, endDate := nowMs as real / 1000.0)
  }

  /**
   * `endPoll(id)` at `nowMs`: a missing or inactive poll is refused and nothing
   * changes; otherwise the poll is closed. A closed poll is inactive, so ending
   * it again is refused.
   */
  method EndPoll(store: PollStore, id: string, nowMs: int) returns (r: EndReply)
    modifies store
    ensures r == PollNotFound <==> id !in old(store.polls)
    ensures r == PollNotActive <==> id in old(store.polls) && !old(store.polls)[id].active
    ensures r != PollEnded ==> store.polls == old(store.polls)
    ensures r == PollEnded ==> store.polls == old(store.polls)[id := Closed(old(store.polls)[id], nowMs)]
  {
    if id !in store.polls {
      return PollNotFound;
    }
    var poll := store.polls[id];
    if !poll.active {
      return PollNotActive;
    }
    store.polls := store.polls[id := Closed(poll, nowMs)];
    return PollEnded;
  }

  /** The reply to a button press. */
  datatype InteractionReply = NoPoll | Vote(reply: VoteReply) | NoPermission | EndedByButton | NoReply

  /**
   * `onInteraction`: a press on the message `messageId` by `user`, whose standing
   * is `member`, at `nowMs`. Votes are recorded whether or not the poll is
   * active; the end button ends the poll and does not write the votes; any other
   * button writes the votes back unchanged.
   */
  method OnInteraction(store: PollStore, messageId: string, user: string, customId: string,
                       member: Option<Standing>, nowMs: int) returns (r: InteractionReply)
    modifies store
    ensures messageId !in old(store.polls) ==> r == NoPoll && store.polls == old(store.polls)
    ensures messageId in old(store.polls) ==>
      var p := old(store.polls)[messageId];
      match ButtonOf(customId)
      case VoteButton(c) =>
        r == Vote(VoteOutcome(p.votes, user, c)) && store.polls == old(store.polls)[messageId := p.(votes := Voted(p.votes, user, c))]
      case EndPollButton =>
        r == EndedByButton && store.polls == if p.active then old(store.polls)[messageId := Closed(p, nowMs)] else old(store.polls)
      case OtherButton(_) =>
        r == NoReply && store.polls == old(store.polls)
  {
    if messageId !in store.polls {
      return NoPoll;
    }
    var poll := store.polls[messageId];
    var ballot := new Ballot(poll.votes);
    match ButtonOf(customId) {
      case VoteButton(c) =>
        var reply := ballot.Press(user, c);
        r := Vote(reply);
      case EndPollButton =>
        if PermissionLevel(member) < 0 {
          return NoPermission;
        }
        var _ := EndPoll(store, messageId, nowMs);
        return EndedByButton;
      case OtherButton(_) =>
        r := NoReply;
    }
    store.polls := store.polls[messageId := poll.(votes := ballot.Current())];
  }

  /** The poller's test: the stored end date (seconds) against `Date.now()` (milliseconds). */
  predicate Expired(p: PollRecord, nowMs: int)
  {
    p.endDate < nowMs as real
  }

  /**
   * Because the end date is in seconds and the clock in milliseconds, a poll
   * made at any time past the first 21.622 seconds of the epoch counts as
   * expired as soon as the poller looks at it, six hours early.
   */
  lemma FreshPollExpiresAtOnce(messageId: string, channelId: string, uuid: string, name: string, createdMs: int, nowMs: int)
    requires 21622 <= createdMs <= nowMs
    ensures Expired(PollSchema(messageId, channelId, uuid, name, createdMs), nowMs)
  {
    var p := PollSchema(messageId, channelId, uuid, name, createdMs);
    assert p.endDate * 1000.0 == (createdMs + SixHours) as real;
    assert (createdMs + SixHours) as real < nowMs as real * 1000.0;
  }
}
