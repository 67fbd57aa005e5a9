/** What each stored entry says, read off the calls the pass made about its address. */
module FossaEntries {
  import opened Options
  import opened Text
  import opened FossaService
  import opened FossaPass

  /* ----- the answers in a log ----- */

  predicate RepliedAt(log: seq<Entry>, k: nat, c: Call, r: Reply) {
    k < |log| && log[k].call == c && log[k].reply == r
  }

  /** From a position on, the call was made and answered so. */
  ghost predicate Replied(log: seq<Entry>, from: nat, c: Call, r: Reply) {
    exists k: nat :: from <= k && RepliedAt(log, k, c, r)
  }

  ghost predicate Made(log: seq<Entry>, from: nat, c: Call) {
    exists r :: Replied(log, from, c, r)
  }

  /** Some answer to the call lists the address. */
  ghost predicate ListedBy(log: seq<Entry>, from: nat, c: Call, email: string) {
    exists list :: Replied(log, from, c, Emails(list)) && Lower(email) in Folded(list)
  }

  ghost predicate SameReplies(log: seq<Entry>, from: nat, log': seq<Entry>, from': nat, c: Call) {
    forall r :: Replied(log, from, c, r) <==> Replied(log', from', c, r)
  }

  lemma SameMade(log: seq<Entry>, from: nat, log': seq<Entry>, from': nat, c: Call)
    requires SameReplies(log, from, log', from', c)
    ensures Made(log, from, c) == Made(log', from', c)
  {
    hide Replied;
  }

  lemma NotRepliedAt(log: seq<Entry>, from: nat, c: Call, k: nat, r: Reply)
    requires !Made(log, from, c) && from <= k
    ensures !RepliedAt(log, k, c, r)
  {
    hide RepliedAt;
    assert RepliedAt(log, k, c, r) ==> Replied(log, from, c, r);
  }

  /** A longer log in which the call is not made again. */
  lemma NotMadeLater(log: seq<Entry>, more: seq<Entry>, from: nat, c: Call)
    requires log <= more && !Made(more, |log|, c)
    ensures SameReplies(log, from, more, from, c)
  {
    forall r ensures Replied(log, from, c, r) <==> Replied(more, from, c, r) {
      if Replied(log, from, c, r) {
        var k: nat :| from <= k && RepliedAt(log, k, c, r);
        assert RepliedAt(more, k, c, r);
      }
      if Replied(more, from, c, r) {
        var k: nat :| from <= k && RepliedAt(more, k, c, r);
        if k >= |log| {
          NotRepliedAt(more, |log|, c, k, r);
        }
        assert RepliedAt(log, k, c, r);
      }
    }
  }

  /** A later start before which the call is not made. */
  lemma NotMadeEarlier(log: seq<Entry>, more: seq<Entry>, from: nat, c: Call)
    requires log <= more && from <= |log| && !Made(log, from, c)
    ensures SameReplies(more, |log|, more, from, c)
  {
    forall r ensures Replied(more, |log|, c, r) <==> Replied(more, from, c, r) {
      if Replied(more, from, c, r) {
        var k: nat :| from <= k && RepliedAt(more, k, c, r);
        if k < |log| {
          NotRepliedAt(log, from, c, k, r);
        }
        assert |log| <= k && RepliedAt(more, k, c, r);
      }
    }
  }

  lemma NothingMade(log: seq<Entry>, c: Call)
    ensures !Made(log, |log|, c)
  {
  }

  lemma OneMade(log: seq<Entry>, entry: Entry, c: Call, r: Reply)
    ensures Replied(log + [entry], |log|, c, r) <==> entry.call == c && entry.reply == r
  {
    assert entry.call == c && entry.reply == r ==> RepliedAt(log + [entry], |log|, c, r);
  }

  lemma PerformReplies(w: World, sched: Schedule, asked: Call, c: Call, r: Reply)
    ensures var (w1, reply) := Perform(w, sched, asked);
            && w.log <= w1.log && |w1.log| == |w.log| + 1
            && (Replied(w1.log, |w.log|, c, r) <==> asked == c && reply == r)
            && (c != asked ==> !Made(w1.log, |w.log|, c))
  {
    hide ApplyAll, Execute, Replied;
    var (w1, reply) := Perform(w, sched, asked);
    forall x ensures Replied(w1.log, |w.log|, c, x) <==> asked == c && reply == x {
      OneMade(w.log, w1.log[|w.log|], c, x);
    }
  }

  /** Two steps, of which the second does not make the call. */
  lemma ThenNotMade(w: World, w1: World, w2: World, c: Call)
    requires w.log <= w1.log <= w2.log && !Made(w2.log, |w1.log|, c)
    ensures SameReplies(w1.log, |w.log|, w2.log, |w.log|, c)
    ensures !Made(w1.log, |w.log|, c) ==> !Made(w2.log, |w.log|, c)
  {
    hide Made, SameReplies;
    NotMadeLater(w1.log, w2.log, |w.log|, c);
    SameMade(w1.log, |w.log|, w2.log, |w.log|, c);
  }

  /** Two steps, of which the first does not make the call. */
  lemma FirstNotMade(w: World, w1: World, w2: World, c: Call)
    requires w.log <= w1.log <= w2.log && !Made(w1.log, |w.log|, c)
    ensures SameReplies(w2.log, |w1.log|, w2.log, |w.log|, c)
    ensures !Made(w2.log, |w1.log|, c) ==> !Made(w2.log, |w.log|, c)
  {
    hide Made, SameReplies;
    NotMadeEarlier(w1.log, w2.log, |w.log|, c);
    SameMade(w2.log, |w1.log|, w2.log, |w.log|, c);
  }

  /* ----- step 8.1 ----- */

  /** What step 8.1 makes of an address: which calls it makes about it, and what their answers mean. */
  ghost predicate InvitedAs(log: seq<Entry>, from: nat, isUser: bool, email: string, inv: Invitation) {
    var asking, inviting := HasPendingInvitation(email), SendUserInvitation(email);
    && (Made(log, from, asking) <==> !isUser)
    && (Made(log, from, inviting) <==> Replied(log, from, asking, Flag(false)))
    && (inv.status == Failed <==>
          (exists why :: Replied(log, from, asking, Error(why))) ||
          (exists why :: Replied(log, from, inviting, Error(why)) && why != InviteAlreadyExists && why != UserAlreadyMember))
    && (inv.status == Pending <==>
          || Replied(log, from, asking, Flag(true)) || Replied(log, from, inviting, Done)
          || Replied(log, from, inviting, Error(InviteAlreadyExists)))
    && (inv.status == Accepted <==> isUser || Replied(log, from, inviting, Error(UserAlreadyMember)))
  }

  /** The message and the dates of an entry tell which answer decided. */
  ghost predicate InvitedDetails(log: seq<Entry>, from: nat, inv: Invitation, now: int) {
    var asking, inviting := HasPendingInvitation(inv.email), SendUserInvitation(inv.email);
    && (inv.status == Accepted ==> inv.message == UserIsOrgMember)
    && (forall why :: Replied(log, from, asking, Error(why)) ==> inv.message == CheckFailed(why))
    && (Replied(log, from, asking, Flag(true)) ==> inv.message == PendingExpiresAfter48h)
    && (Replied(log, from, inviting, Done) ==> inv.message == InvitationSent)
    && (Replied(log, from, inviting, Error(InviteAlreadyExists)) ==> inv.message == PendingAfterRace)
    && (forall why :: Replied(log, from, inviting, Error(why)) && why != InviteAlreadyExists && why != UserAlreadyMember ==>
          inv.message == SendFailed(why))
    && (Made(log, from, inviting) ==> inv.invitedAt == if inv.status == Pending then Some(now) else None)
    && (inv.status == Failed ==> inv.invitedAt == None)
    && inv.acceptedAt == (if inv.status == Accepted then Some(now) else None)
    && inv.addedAt == None
  }

  ghost predicate Tells(log: seq<Entry>, from: nat, isUser: bool, inv: Invitation, now: int) {
    InvitedAs(log, from, isUser, inv.email, inv) && InvitedDetails(log, from, inv, now)
  }

  lemma InvitedElsewhere(log: seq<Entry>, from: nat, log': seq<Entry>, from': nat, isUser: bool, inv: Invitation, now: int)
    requires SameReplies(log, from, log', from', HasPendingInvitation(inv.email))
    requires SameReplies(log, from, log', from', SendUserInvitation(inv.email))
    ensures InvitedAs(log, from, isUser, inv.email, inv) <==> InvitedAs(log', from', isUser, inv.email, inv)
    ensures InvitedDetails(log, from, inv, now) <==> InvitedDetails(log', from', inv, now)
  {
    hide Replied, Made;
    SameMade(log, from, log', from', HasPendingInvitation(inv.email));
    SameMade(log, from, log', from', SendUserInvitation(inv.email));
  }

  lemma ReplyShapes(w: World, sched: Schedule, email: string)
    ensures var r := Perform(w, sched, HasPendingInvitation(email)).1; r.Flag? || r.Error?
    ensures var r := Perform(w, sched, SendUserInvitation(email)).1; r == Done || r.Error?
  {
    hide ApplyAll;
  }

  /** Step 8.1 makes no call but the two about the address. */
  lemma InviteOneMakes(w: World, sched: Schedule, users: set<string>, index: map<string, Invitation>, email: string,
                       now: int, c: Call)
    requires c != HasPendingInvitation(email) && c != SendUserInvitation(email)
    ensures !Made(InviteOne(w, sched, users, index, email, now).0.log, |w.log|, c)
  {
    hide Perform, Lower, Remembered, Made, SameReplies;
    NothingMade(w.log, c);
    PerformReplies(w, sched, HasPendingInvitation(email), c, Done);
    var w1 := Perform(w, sched, HasPendingInvitation(email)).0;
    PerformReplies(w1, sched, SendUserInvitation(email), c, Done);
    ThenNotMade(w, w1, Perform(w1, sched, SendUserInvitation(email)).0, c);
  }

  /** The calls step 8.1 makes about an address, and their answers. */
  lemma InviteOneReplies(w: World, sched: Schedule, users: set<string>, index: map<string, Invitation>, email: string,
                         now: int, r: Reply)
    ensures var log := InviteOne(w, sched, users, index, email, now).0.log;
            var (w1, check) := Perform(w, sched, HasPendingInvitation(email));
            var sent := Perform(w1, sched, SendUserInvitation(email)).1;
            && (Replied(log, |w.log|, HasPendingInvitation(email), r) <==> Lower(email) !in users && r == check)
            && (Replied(log, |w.log|, SendUserInvitation(email), r) <==>
                  Lower(email) !in users && !check.Error? && check != Flag(true) && r == sent)
  {
    hide Perform, Lower, Remembered, Replied;
    var asking, inviting := HasPendingInvitation(email), SendUserInvitation(email);
    NothingMade(w.log, asking);
    NothingMade(w.log, inviting);
    PerformReplies(w, sched, asking, asking, r);
    PerformReplies(w, sched, asking, inviting, r);
    var w1 := Perform(w, sched, asking).0;
    PerformReplies(w1, sched, inviting, asking, r);
    PerformReplies(w1, sched, inviting, inviting, r);
    ThenNotMade(w, w1, Perform(w1, sched, inviting).0, asking);
    FirstNotMade(w, w1, Perform(w1, sched, inviting).0, inviting);
  }

  lemma InviteOneTells(w: World, sched: Schedule, users: set<string>, index: map<string, Invitation>, email: string, now: int)
    ensures var (w', inv) := InviteOne(w, sched, users, index, email, now);
            Tells(w'.log, |w.log|, Lower(email) in users, inv, now)
  {
    hide Perform, Lower, Remembered, Replied;
    var (w', inv) := InviteOne(w, sched, users, index, email, now);
    var (w1, check) := Perform(w, sched, HasPendingInvitation(email));
    var sent := Perform(w1, sched, SendUserInvitation(email)).1;
    ReplyShapes(w, sched, email);
    ReplyShapes(w1, sched, email);
    forall r {
      InviteOneReplies(w, sched, users, index, email, now, r);
    }
    assert Replied(w'.log, |w.log|, HasPendingInvitation(email), check) <==> Lower(email) !in users;
    assert Replied(w'.log, |w.log|, SendUserInvitation(email), sent) <==>
      Lower(email) !in users && !check.Error? && check != Flag(true);
  }

  /** The call is about none of the first n addresses. */
  ghost predicate AboutNone(emails: seq<string>, n: nat, c: Call)
    requires n <= |emails|
  {
    forall i :: 0 <= i < n ==> c != HasPendingInvitation(emails[i]) && c != SendUserInvitation(emails[i])
  }

  lemma {:induction false} InviteFirstMakes(w: World, sched: Schedule, users: set<string>, index: map<string, Invitation>,
                                            emails: seq<string>, clock: Clock, n: nat, c: Call)
    requires n <= |emails| && AboutNone(emails, n, c)
    ensures !Made(InviteFirst(w, sched, users, index, emails, clock, n).0.log, |w.log|, c)
  {
    hide InviteOne, Made, SameReplies;
    if n == 0 {
      NothingMade(w.log, c);
    } else {
      InviteFirstMakes(w, sched, users, index, emails, clock, n - 1, c);
      var w1 := InviteFirst(w, sched, users, index, emails, clock, n - 1).0;
      InviteOneMakes(w1, sched, users, index, emails[n - 1], clock.invite(n - 1), c);
      ThenNotMade(w, w1, InviteFirst(w, sched, users, index, emails, clock, n).0, c);
    }
  }

  lemma TellsThen(w: World, w1: World, w2: World, isUser: bool, inv: Invitation, now: int)
    requires w.log <= w1.log <= w2.log && Tells(w1.log, |w.log|, isUser, inv, now)
    requires !Made(w2.log, |w1.log|, HasPendingInvitation(inv.email))
    requires !Made(w2.log, |w1.log|, SendUserInvitation(inv.email))
    ensures Tells(w2.log, |w.log|, isUser, inv, now)
  {
    hide InvitedAs, InvitedDetails, Made, SameReplies;
    ThenNotMade(w, w1, w2, HasPendingInvitation(inv.email));
    ThenNotMade(w, w1, w2, SendUserInvitation(inv.email));
    InvitedElsewhere(w1.log, |w.log|, w2.log, |w.log|, isUser, inv, now);
  }

  lemma FirstThenTells(w: World, w1: World, w2: World, isUser: bool, inv: Invitation, now: int)
    requires w.log <= w1.log <= w2.log && Tells(w2.log, |w1.log|, isUser, inv, now)
    requires !Made(w1.log, |w.log|, HasPendingInvitation(inv.email))
    requires !Made(w1.log, |w.log|, SendUserInvitation(inv.email))
    ensures Tells(w2.log, |w.log|, isUser, inv, now)
  {
    hide InvitedAs, InvitedDetails, Made, SameReplies;
    FirstNotMade(w, w1, w2, HasPendingInvitation(inv.email));
    FirstNotMade(w, w1, w2, SendUserInvitation(inv.email));
    InvitedElsewhere(w2.log, |w1.log|, w2.log, |w.log|, isUser, inv, now);
  }

  lemma {:induction false} InviteFirstTells(w: World, sched: Schedule, users: set<string>, index: map<string, Invitation>,
                                            emails: seq<string>, clock: Clock, n: nat, i: nat)
    requires i < n <= |emails| && NoRepeats(emails)
    ensures var (w', list) := InviteFirst(w, sched, users, index, emails, clock, n);
            Tells(w'.log, |w.log|, Lower(emails[i]) in users, list[i], clock.invite(i))
  {
    hide InviteOne, Tells, Made, Lower, FirstHand;
    var (w1, before) := InviteFirst(w, sched, users, index, emails, clock, n - 1);
    var (w2, list) := InviteFirst(w, sched, users, index, emails, clock, n);
    var isUser, asking, inviting := Lower(emails[i]) in users, HasPendingInvitation(emails[i]), SendUserInvitation(emails[i]);
    if i < n - 1 {
      InviteFirstTells(w, sched, users, index, emails, clock, n - 1, i);
      InviteOneMakes(w1, sched, users, index, emails[n - 1], clock.invite(n - 1), asking);
      InviteOneMakes(w1, sched, users, index, emails[n - 1], clock.invite(n - 1), inviting);
      TellsThen(w, w1, w2, isUser, list[i], clock.invite(i));
    } else {
      assert Tells(w2.log, |w1.log|, isUser, list[i], clock.invite(i)) by {
        InviteOneTells(w1, sched, users, index, emails[i], clock.invite(i));
      }
      InviteFirstMakes(w, sched, users, index, emails, clock, n - 1, asking);
      InviteFirstMakes(w, sched, users, index, emails, clock, n - 1, inviting);
      FirstThenTells(w, w1, w2, isUser, list[i], clock.invite(i));
    }
  }

  /* ----- step 8.2 ----- */

  /** What step 8.2 makes of an entry that is not on the team yet. */
  ghost predicate JoinedAs(log: seq<Entry>, from: nat, team: int, onList: bool, inv: Invitation, after: Invitation) {
    var adding := AddUserToTeamByEmail(team, inv.email, 0);
    var waiting := inv.status == Accepted || inv.status == AlreadyMember;
    && (Made(log, from, adding) <==> waiting && !onList)
    && (after.status == AddedToTeam <==>
          waiting && (onList || Replied(log, from, adding, Done) || Replied(log, from, adding, Error(UserAlreadyMember))))
    && (after.status != AddedToTeam ==> after.status == inv.status)
  }

  ghost predicate JoinedDetails(log: seq<Entry>, from: nat, team: int, inv: Invitation, after: Invitation, now: int) {
    var adding := AddUserToTeamByEmail(team, inv.email, 0);
    && (Replied(log, from, adding, Done) ==> after.message == UserAddedToTeam)
    && (Replied(log, from, adding, Error(UserAlreadyMember)) ==> after.message == UserIsTeamMember)
    && (forall why :: Replied(log, from, adding, Error(why)) && why != UserAlreadyMember ==> after.message == AddFailed(why))
    && (!Made(log, from, adding) ==>
          after.message == if after.status == AddedToTeam then UserIsTeamMember else inv.message)
    && after.invitedAt == inv.invitedAt && after.acceptedAt == inv.acceptedAt
    && after.addedAt == (if after.status == AddedToTeam then Some(now) else inv.addedAt)
  }

  lemma JoinedElsewhere(log: seq<Entry>, from: nat, log': seq<Entry>, from': nat, team: int, onList: bool,
                        inv: Invitation, after: Invitation, now: int)
    requires SameReplies(log, from, log', from', AddUserToTeamByEmail(team, inv.email, 0))
    ensures JoinedAs(log, from, team, onList, inv, after) <==> JoinedAs(log', from', team, onList, inv, after)
    ensures JoinedDetails(log, from, team, inv, after, now) <==> JoinedDetails(log', from', team, inv, after, now)
  {
    hide Replied, Made;
    SameMade(log, from, log', from', AddUserToTeamByEmail(team, inv.email, 0));
  }

  lemma AddReplyShape(w: World, sched: Schedule, team: int, email: string)
    ensures var r := Perform(w, sched, AddUserToTeamByEmail(team, email, 0)).1; r == Done || r.Error?
  {
    hide ApplyAll;
  }

  lemma JoinOneMakes(w: World, sched: Schedule, team: int, members: set<string>, inv: Invitation, now: int, c: Call)
    requires c != AddUserToTeamByEmail(team, inv.email, 0)
    ensures !Made(JoinOne(w, sched, team, members, inv, now).0.log, |w.log|, c)
  {
    hide Perform, Lower, Made, SameReplies;
    NothingMade(w.log, c);
    PerformReplies(w, sched, AddUserToTeamByEmail(team, inv.email, 0), c, Done);
  }

  lemma JoinOneTells(w: World, sched: Schedule, team: int, members: set<string>, inv: Invitation, now: int)
    requires FirstHand(inv)
    ensures var (w', after) := JoinOne(w, sched, team, members, inv, now);
            && JoinedAs(w'.log, |w.log|, team, Lower(inv.email) in members, inv, after)
            && JoinedDetails(w'.log, |w.log|, team, inv, after, now)
  {
    hide Perform, Lower, Replied;
    var adding := AddUserToTeamByEmail(team, inv.email, 0);
    var w' := JoinOne(w, sched, team, members, inv, now).0;
    var added := Perform(w, sched, adding).1;
    AddReplyShape(w, sched, team, inv.email);
    NothingMade(w.log, adding);
    forall r ensures Replied(w'.log, |w.log|, adding, r) <==> Waiting(inv) && Lower(inv.email) !in members && r == added {
      PerformReplies(w, sched, adding, adding, r);
      assert !Replied(w.log, |w.log|, adding, r);
    }
    assert Replied(w'.log, |w.log|, adding, added) <==> Waiting(inv) && Lower(inv.email) !in members;
  }

  lemma {:induction false} JoinFirstMakes(w: World, sched: Schedule, team: int, members: set<string>,
                                          list: seq<Invitation>, clock: Clock, n: nat, c: Call)
    requires n <= |list| && forall i :: 0 <= i < n ==> c != AddUserToTeamByEmail(team, list[i].email, 0)
    ensures !Made(JoinFirst(w, sched, team, members, list, clock, n).0.log, |w.log|, c)
  {
    hide JoinOne, Made, SameReplies;
    if n == 0 {
      NothingMade(w.log, c);
    } else {
      JoinFirstMakes(w, sched, team, members, list, clock, n - 1, c);
      var w1 := JoinFirst(w, sched, team, members, list, clock, n - 1).0;
      JoinOneMakes(w1, sched, team, members, list[n - 1], clock.member(n - 1), c);
      ThenNotMade(w, w1, JoinFirst(w, sched, team, members, list, clock, n).0, c);
    }
  }

  lemma {:induction false} JoinFirstTells(w: World, sched: Schedule, team: int, members: set<string>,
                                          list: seq<Invitation>, emails: seq<string>, clock: Clock, n: nat, i: nat)
    requires i < n <= |list| && NoRepeats(emails) && Answers(list, emails, |emails|)
    ensures var (w', done) := JoinFirst(w, sched, team, members, list, clock, n);
            && JoinedAs(w'.log, |w.log|, team, Lower(list[i].email) in members, list[i], done[i])
            && JoinedDetails(w'.log, |w.log|, team, list[i], done[i], clock.member(i))
  {
    hide JoinOne, JoinedAs, JoinedDetails, Made, SameReplies, Lower;
    var w1 := JoinFirst(w, sched, team, members, list, clock, n - 1).0;
    var (w2, done) := JoinFirst(w, sched, team, members, list, clock, n);
    var onList, adding := Lower(list[i].email) in members, AddUserToTeamByEmail(team, list[i].email, 0);
    if i < n - 1 {
      JoinFirstTells(w, sched, team, members, list, emails, clock, n - 1, i);
      JoinOneMakes(w1, sched, team, members, list[n - 1], clock.member(n - 1), adding);
      ThenNotMade(w, w1, w2, adding);
      JoinedElsewhere(w1.log, |w.log|, w2.log, |w.log|, team, onList, list[i], done[i], clock.member(i));
    } else {
      JoinOneTells(w1, sched, team, members, list[i], clock.member(i));
      JoinFirstMakes(w, sched, team, members, list, clock, n - 1, adding);
      FirstNotMade(w, w1, w2, adding);
      JoinedElsewhere(w2.log, |w1.log|, w2.log, |w.log|, team, onList, list[i], done[i], clock.member(i));
    }
  }

  /* ----- the pass ----- */

  /** The address was let in as a user: the fetched users list it, or its invitation was answered so. */
  ghost predicate Inside(log: seq<Entry>, from: nat, email: string) {
    ListedBy(log, from, FetchUsers, email) || Replied(log, from, SendUserInvitation(email), Error(UserAlreadyMember))
  }

  /** The team has the address: its fetched members list it, or adding it was answered so. */
  ghost predicate Placed(log: seq<Entry>, from: nat, team: int, email: string) {
    var adding := AddUserToTeamByEmail(team, email, 0);
    || ListedBy(log, from, FetchTeamUserEmails(team), email)
    || Replied(log, from, adding, Done) || Replied(log, from, adding, Error(UserAlreadyMember))
  }

  /** Which calls are made about an address. */
  ghost predicate Treated(log: seq<Entry>, from: nat, team: int, email: string) {
    && (Made(log, from, HasPendingInvitation(email)) <==> !ListedBy(log, from, FetchUsers, email))
    && (Made(log, from, SendUserInvitation(email)) <==> Replied(log, from, HasPendingInvitation(email), Flag(false)))
    && (Made(log, from, AddUserToTeamByEmail(team, email, 0)) <==>
          && Inside(log, from, email) && !ListedBy(log, from, FetchTeamUserEmails(team), email)
          && exists list :: Replied(log, from, FetchTeamUserEmails(team), Emails(list)))
  }

  /** The status of an entry, from the answers about its address. */
  ghost predicate Explained(log: seq<Entry>, from: nat, team: int, inv: Invitation) {
    var asking, inviting := HasPendingInvitation(inv.email), SendUserInvitation(inv.email);
    && (inv.status == Failed <==>
          (exists why :: Replied(log, from, asking, Error(why))) ||
          (exists why :: Replied(log, from, inviting, Error(why)) && why != InviteAlreadyExists && why != UserAlreadyMember))
    && (inv.status == Pending <==>
          || Replied(log, from, asking, Flag(true)) || Replied(log, from, inviting, Done)
          || Replied(log, from, inviting, Error(InviteAlreadyExists)))
    && (inv.status == AddedToTeam <==> Inside(log, from, inv.email) && Placed(log, from, team, inv.email))
    && (inv.status == Accepted <==> Inside(log, from, inv.email) && !Placed(log, from, team, inv.email))
  }

  /** Its message and its dates likewise. */
  ghost predicate Detailed(log: seq<Entry>, from: nat, team: int, inv: Invitation, invited: int, joined: int) {
    var asking, inviting := HasPendingInvitation(inv.email), SendUserInvitation(inv.email);
    var adding := AddUserToTeamByEmail(team, inv.email, 0);
    && (forall why :: Replied(log, from, asking, Error(why)) ==> inv.message == CheckFailed(why))
    && (Replied(log, from, asking, Flag(true)) ==> inv.message == PendingExpiresAfter48h)
    && (Replied(log, from, inviting, Done) ==> inv.message == InvitationSent)
    && (Replied(log, from, inviting, Error(InviteAlreadyExists)) ==> inv.message == PendingAfterRace)
    && (forall why :: Replied(log, from, inviting, Error(why)) && why != InviteAlreadyExists && why != UserAlreadyMember ==>
          inv.message == SendFailed(why))
    && (Replied(log, from, adding, Done) ==> inv.message == UserAddedToTeam)
    && (forall why :: Replied(log, from, adding, Error(why)) && why != UserAlreadyMember ==> inv.message == AddFailed(why))
    && (inv.status == AddedToTeam && !Replied(log, from, adding, Done) ==> inv.message == UserIsTeamMember)
    && (inv.status == Accepted && !Made(log, from, adding) ==> inv.message == UserIsOrgMember)
    && (Made(log, from, inviting) ==> inv.invitedAt == if inv.status == Pending then Some(invited) else None)
    && (inv.status == Failed ==> inv.invitedAt == None)
    && inv.acceptedAt == (if inv.status == Accepted || inv.status == AddedToTeam then Some(invited) else None)
    && inv.addedAt == (if inv.status == AddedToTeam then Some(joined) else None)
  }

  /* ----- the stages of a pass ----- */

  /** A call made first and not again: what is said of it is its one answer. */
  lemma FetchedOnce(w: World, sched: Schedule, c: Call, w': World, email: string)
    requires Perform(w, sched, c).0.log <= w'.log && !Made(w'.log, |w.log| + 1, c)
    ensures var reply := Perform(w, sched, c).1;
            && (ListedBy(w'.log, |w.log|, c, email) <==> reply.Emails? && Lower(email) in Folded(reply.list))
            && ((exists list :: Replied(w'.log, |w.log|, c, Emails(list))) <==> reply.Emails?)
  {
    hide Perform, Made, SameReplies, Replied, Lower, Folded;
    var (w1, reply) := Perform(w, sched, c);
    forall r ensures Replied(w'.log, |w.log|, c, r) <==> r == reply {
      PerformReplies(w, sched, c, c, r);
      ThenNotMade(w, w1, w', c);
      SameReply(w1.log, |w.log|, w'.log, |w.log|, c, r);
    }
  }

  lemma SameReply(log: seq<Entry>, from: nat, log': seq<Entry>, from': nat, c: Call, r: Reply)
    requires SameReplies(log, from, log', from', c)
    ensures Replied(log, from, c, r) <==> Replied(log', from', c, r)
  {
    hide Replied;
  }

  lemma InviteAllMakes(w: World, sched: Schedule, emails: seq<string>, stored: seq<Invitation>, clock: Clock, c: Call)
    requires c != FetchUsers && AboutNone(emails, |emails|, c)
    ensures !Made(InviteAll(w, sched, emails, stored, clock).0.log, |w.log|, c)
  {
    hide Perform, InviteFirst, Made, SameReplies, AboutNone, Index;
    var (w1, users) := Perform(w, sched, FetchUsers);
    PerformReplies(w, sched, FetchUsers, c, Done);
    if users.Emails? {
      InviteFirstMakes(w1, sched, Folded(users.list), Index(stored), emails, clock, |emails|, c);
      ThenNotMade(w, w1, InviteAll(w, sched, emails, stored, clock).0, c);
    }
  }

  lemma InviteAllTells(w: World, sched: Schedule, emails: seq<string>, stored: seq<Invitation>, clock: Clock, i: nat)
    requires i < |emails| && NoRepeats(emails) && InviteAll(w, sched, emails, stored, clock).2.None?
    ensures var (w', list, _) := InviteAll(w, sched, emails, stored, clock);
            Tells(w'.log, |w.log|, ListedBy(w'.log, |w.log|, FetchUsers, emails[i]), list[i], clock.invite(i))
  {
    hide Perform, InviteFirst, Made, Index, Tells, Lower, Folded, ListedBy;
    var email := emails[i];
    var (w1, users) := Perform(w, sched, FetchUsers);
    var (w', list, _) := InviteAll(w, sched, emails, stored, clock);
    InviteFirstTells(w1, sched, Folded(users.list), Index(stored), emails, clock, |emails|, i);
    InviteFirstMakes(w1, sched, Folded(users.list), Index(stored), emails, clock, |emails|, FetchUsers);
    PerformReplies(w, sched, FetchUsers, HasPendingInvitation(email), Done);
    PerformReplies(w, sched, FetchUsers, SendUserInvitation(email), Done);
    FetchedOnce(w, sched, FetchUsers, w', email);
    FirstThenTells(w, w1, w', Lower(email) in Folded(users.list), list[i], clock.invite(i));
  }

  lemma JoinAllMakes(w: World, sched: Schedule, team: int, list: seq<Invitation>, clock: Clock, c: Call)
    requires c != FetchTeamUserEmails(team)
    requires forall i :: 0 <= i < |list| ==> c != AddUserToTeamByEmail(team, list[i].email, 0)
    ensures !Made(JoinAll(w, sched, team, list, clock).0.log, |w.log|, c)
  {
    hide Perform, JoinFirst, Made, SameReplies;
    var (w1, members) := Perform(w, sched, FetchTeamUserEmails(team));
    PerformReplies(w, sched, FetchTeamUserEmails(team), c, Done);
    if members.Emails? {
      JoinFirstMakes(w1, sched, team, Folded(members.list), list, clock, |list|, c);
      ThenNotMade(w, w1, JoinAll(w, sched, team, list, clock).0, c);
    }
  }

  /** Step 8.2 seen from outside; when the members cannot be fetched nothing is done. */
  ghost predicate Joins(log: seq<Entry>, from: nat, team: int, inv: Invitation, after: Invitation, now: int) {
    if exists list :: Replied(log, from, FetchTeamUserEmails(team), Emails(list)) then
      var onList := ListedBy(log, from, FetchTeamUserEmails(team), inv.email);
      JoinedAs(log, from, team, onList, inv, after) && JoinedDetails(log, from, team, inv, after, now)
    else
      after == inv && !Made(log, from, AddUserToTeamByEmail(team, inv.email, 0))
  }

  lemma JoinAllTells(w: World, sched: Schedule, team: int, list: seq<Invitation>, emails: seq<string>, clock: Clock, i: nat)
    requires i < |list| && NoRepeats(emails) && Answers(list, emails, |emails|)
    ensures var (w', done) := JoinAll(w, sched, team, list, clock);
            Joins(w'.log, |w.log|, team, list[i], done[i], clock.member(i))
  {
    hide Perform, JoinFirst, Made, Lower, Folded, ListedBy, JoinedAs, JoinedDetails, Replied, FirstHand;
    var email, fetching := list[i].email, FetchTeamUserEmails(team);
    var adding := AddUserToTeamByEmail(team, email, 0);
    var (w1, members) := Perform(w, sched, fetching);
    var (w', done) := JoinAll(w, sched, team, list, clock);
    PerformReplies(w, sched, fetching, adding, Done);
    if members.Emails? {
      JoinFirstMakes(w1, sched, team, Folded(members.list), list, clock, |list|, fetching);
      FetchedOnce(w, sched, fetching, w', email);
      JoinFirstTells(w1, sched, team, Folded(members.list), list, emails, clock, |list|, i);
      FirstNotMade(w, w1, w', adding);
      JoinedElsewhere(w'.log, |w1.log|, w'.log, |w.log|, team, Lower(email) in Folded(members.list), list[i], done[i],
                      clock.member(i));
    } else {
      NothingMade(w1.log, fetching);
      FetchedOnce(w, sched, fetching, w', email);
    }
  }

  /** Calls that step 8.2 does not make are left as step 8.1 answered them, and the other way about. */
  lemma JoinsLater(w: World, w1: World, w2: World, team: int, inv: Invitation, after: Invitation, now: int)
    requires w.log <= w1.log <= w2.log && Joins(w2.log, |w1.log|, team, inv, after, now)
    requires !Made(w1.log, |w.log|, FetchTeamUserEmails(team))
    requires !Made(w1.log, |w.log|, AddUserToTeamByEmail(team, inv.email, 0))
    ensures Joins(w2.log, |w.log|, team, inv, after, now)
  {
    hide Made, SameReplies, JoinedAs, JoinedDetails, Replied;
    var fetching, adding := FetchTeamUserEmails(team), AddUserToTeamByEmail(team, inv.email, 0);
    FirstNotMade(w, w1, w2, fetching);
    FirstNotMade(w, w1, w2, adding);
    SameLists(w2.log, |w1.log|, w2.log, |w.log|, fetching, inv.email);
    SameMade(w2.log, |w1.log|, w2.log, |w.log|, adding);
    JoinedElsewhere(w2.log, |w1.log|, w2.log, |w.log|, team, ListedBy(w2.log, |w.log|, fetching, inv.email), inv, after, now);
  }

  lemma SameLists(log: seq<Entry>, from: nat, log': seq<Entry>, from': nat, c: Call, email: string)
    requires SameReplies(log, from, log', from', c)
    ensures ListedBy(log, from, c, email) <==> ListedBy(log', from', c, email)
    ensures (exists list :: Replied(log, from, c, Emails(list))) <==> (exists list :: Replied(log', from', c, Emails(list)))
  {
    hide Replied, Lower, Folded;
    if list :| Replied(log, from, c, Emails(list)) {
      assert Replied(log', from', c, Emails(list));
    }
    if list :| Replied(log', from', c, Emails(list)) {
      assert Replied(log, from, c, Emails(list));
    }
  }

  /** The two steps together. */
  lemma BothSteps(log: seq<Entry>, from: nat, team: int, inv: Invitation, after: Invitation, invited: int, joined: int)
    requires FirstHand(inv) && after.email == inv.email
    requires Tells(log, from, ListedBy(log, from, FetchUsers, inv.email), inv, invited)
    requires Joins(log, from, team, inv, after, joined)
    ensures Treated(log, from, team, inv.email) && Explained(log, from, team, after)
    ensures Detailed(log, from, team, after, invited, joined)
  {
    hide Replied, Lower, Folded;
  }

  lemma TeamMakes(w: World, sched: Schedule, name: string, c: Call)
    requires !c.FetchTeam? && !c.CreateTeam?
    ensures !Made(EnsureTeam(w, sched, name).0.log, |w.log|, c)
  {
    hide Perform, Made, SameReplies;
    var w1 := Perform(w, sched, FetchTeam(name)).0;
    PerformReplies(w, sched, FetchTeam(name), c, Done);
    PerformReplies(w1, sched, CreateTeam(name), c, Done);
    ThenNotMade(w, w1, Perform(w1, sched, CreateTeam(name)).0, c);
  }

  ghost predicate EntryTold(log: seq<Entry>, from: nat, team: int, inv: Invitation, invited: int, joined: int) {
    Treated(log, from, team, inv.email) && Explained(log, from, team, inv) && Detailed(log, from, team, inv, invited, joined)
  }

  ghost predicate OnlyTeamCalls(w: World, w1: World) {
    w.log <= w1.log && forall c: Call :: !c.FetchTeam? && !c.CreateTeam? ==> !Made(w1.log, |w.log|, c)
  }

  /** The entry of step 8.1, seen from the start of the pass and at its end. */
  lemma StageInvites(w0: World, w: World, w': World, sched: Schedule, emails: seq<string>, stored: seq<Invitation>,
                     clock: Clock, i: nat)
    requires i < |emails| && NoRepeats(emails) && OnlyTeamCalls(w0, w)
    requires InviteAll(w, sched, emails, stored, clock).2.None? && InviteAll(w, sched, emails, stored, clock).0.log <= w'.log
    requires var w1 := InviteAll(w, sched, emails, stored, clock).0;
             && !Made(w'.log, |w1.log|, FetchUsers) && !Made(w'.log, |w1.log|, HasPendingInvitation(emails[i]))
             && !Made(w'.log, |w1.log|, SendUserInvitation(emails[i]))
    ensures var inv := InviteAll(w, sched, emails, stored, clock).1[i];
            && inv.email == emails[i] && FirstHand(inv)
            && Tells(w'.log, |w0.log|, ListedBy(w'.log, |w0.log|, FetchUsers, emails[i]), inv, clock.invite(i))
  {
    hide InviteAll, Made, Tells, ListedBy, SameReplies;
    var (w1, invited, _) := InviteAll(w, sched, emails, stored, clock);
    var inv := invited[i];
    InviteAllTells(w, sched, emails, stored, clock, i);
    FirstNotMade(w0, w, w1, FetchUsers);
    ThenNotMade(w0, w1, w', FetchUsers);
    SameLists(w1.log, |w.log|, w1.log, |w0.log|, FetchUsers, emails[i]);
    SameLists(w1.log, |w0.log|, w'.log, |w0.log|, FetchUsers, emails[i]);
    var isUser := ListedBy(w'.log, |w0.log|, FetchUsers, emails[i]);
    FirstThenTells(w0, w, w1, isUser, inv, clock.invite(i));
    TellsThen(w0, w1, w', isUser, inv, clock.invite(i));
  }

  /** And that of step 8.2. */
  lemma StageJoins(w0: World, w: World, sched: Schedule, emails: seq<string>, stored: seq<Invitation>, team: int,
                   clock: Clock, i: nat)
    requires i < |emails| && NoRepeats(emails) && OnlyTeamCalls(w0, w)
    requires InviteAll(w, sched, emails, stored, clock).2.None?
    ensures var (w1, invited, _) := InviteAll(w, sched, emails, stored, clock);
            var (w', done) := if team > 0 then JoinAll(w1, sched, team, invited, clock) else (w1, invited);
            && w1.log <= w'.log && |done| == |emails|
            && Joins(w'.log, |w0.log|, team, invited[i], done[i], clock.member(i)) && done[i].email == emails[i]
            && !Made(w'.log, |w1.log|, FetchUsers) && !Made(w'.log, |w1.log|, HasPendingInvitation(emails[i]))
            && !Made(w'.log, |w1.log|, SendUserInvitation(emails[i]))
  {
    hide InviteAll, JoinAll, Made, Joins, SameReplies, FirstHand;
    var (w1, invited, _) := InviteAll(w, sched, emails, stored, clock);
    var fetching, adding := FetchTeamUserEmails(team), AddUserToTeamByEmail(team, emails[i], 0);
    assert invited[i].email == emails[i];
    InviteAllMakes(w, sched, emails, stored, clock, fetching);
    InviteAllMakes(w, sched, emails, stored, clock, adding);
    ThenNotMade(w0, w, w1, fetching);
    ThenNotMade(w0, w, w1, adding);
    if team > 0 {
      var (w', done) := JoinAll(w1, sched, team, invited, clock);
      assert Follows(invited[i], done[i]);
      JoinAllTells(w1, sched, team, invited, emails, clock, i);
      JoinsLater(w0, w1, w', team, invited[i], done[i], clock.member(i));
      JoinAllMakes(w1, sched, team, invited, clock, FetchUsers);
      JoinAllMakes(w1, sched, team, invited, clock, HasPendingInvitation(emails[i]));
      JoinAllMakes(w1, sched, team, invited, clock, SendUserInvitation(emails[i]));
    } else {
      NothingMade(w1.log, FetchUsers);
      NothingMade(w1.log, HasPendingInvitation(emails[i]));
      NothingMade(w1.log, SendUserInvitation(emails[i]));
      NobodyJoins(w1.log, |w0.log|, team, invited[i], clock.member(i));
    }
  }

  lemma NobodyJoins(log: seq<Entry>, from: nat, team: int, inv: Invitation, now: int)
    requires !Made(log, from, FetchTeamUserEmails(team)) && !Made(log, from, AddUserToTeamByEmail(team, inv.email, 0))
    ensures Joins(log, from, team, inv, inv, now)
  {
    hide Replied, JoinedAs, JoinedDetails;
  }

  lemma StageTells(w0: World, w: World, sched: Schedule, cr: Resource, team: int, clock: Clock, i: nat)
    requires i < |cr.emails| && NoRepeats(cr.emails) && OnlyTeamCalls(w0, w)
    requires UserStage(w, sched, cr, team, clock).1.invitations != []
    ensures var (w', cr', _) := UserStage(w, sched, cr, team, clock);
            && |cr'.invitations| == |cr.emails| && cr'.invitations[i].email == cr.emails[i]
            && EntryTold(w'.log, |w0.log|, team, cr'.invitations[i], clock.invite(i), clock.member(i))
  {
    hide InviteAll, JoinAll, Verdict, Upsert, Tally, Made, Tells, Joins, OnlyTeamCalls, ListedBy, Treated, Explained, Detailed;
    var (w1, invited, failure) := InviteAll(w, sched, cr.emails, cr.invitations, clock);
    var (w', cr', _) := UserStage(w, sched, cr, team, clock);
    assert team > 0 ==> |cr'.invitations| == |invited|;
    assert failure.None?;
    StageJoins(w0, w, sched, cr.emails, cr.invitations, team, clock, i);
    StageInvites(w0, w, w', sched, cr.emails, cr.invitations, clock, i);
    BothSteps(w'.log, |w0.log|, team, invited[i], cr'.invitations[i], clock.invite(i), clock.member(i));
  }

  /** What a stored entry says, under every schedule of faults and of other people's acts, when no address
      is listed twice: which calls the pass made about its address, and how their answers decide its
      status, its message and its dates. */
  lemma PassEntries(s: Sys, sched: Schedule, kube: Kube, clock: Clock, i: nat)
    requires i < |s.cr.emails| && NoRepeats(s.cr.emails)
    requires Pass(s, sched, kube, clock).listed.Some? && Pass(s, sched, kube, clock).sys.cr.invitations != []
    ensures var p := Pass(s, sched, kube, clock);
            var list := p.sys.cr.invitations;
            && |list| == |s.cr.emails| && list[i].email == s.cr.emails[i]
            && EntryTold(p.sys.world.log, |s.world.log|, p.listed.value, list[i], clock.invite(i), clock.member(i))
  {
    hide EnsureTeam, UserStage, Upsert, EntryTold, Made;
    var (w1, got) := EnsureTeam(s.world, sched, s.cr.project);
    var cr1 := TeamStep(s.cr, got.team, kube.credentials.organization, clock.condition(0));
    var cr2 := SetCondition(cr1, ConfigMapReady, true, ConfigMapCreated, ConfigMapIsReady, clock.condition(1));
    forall c: Call | !c.FetchTeam? && !c.CreateTeam? ensures !Made(w1.log, |s.world.log|, c) {
      TeamMakes(s.world, sched, s.cr.project, c);
    }
    StageTells(s.world, w1, sched, cr2, got.team.id, clock, i);
  }
}
