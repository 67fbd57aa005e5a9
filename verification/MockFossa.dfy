/** The stateful FOSSA service the onboarding webhook is developed against. */
module MockFossa {
  import opened Text

  /** What the client interface may refuse to do, whatever the state. */
  datatype Trouble = Trouble(create: bool, send: set<string>, pending: set<string>, add: set<string>,
                             fetch: bool, repos: bool)

  datatype Remote = Remote(teams: map<string, int>, invitations: set<string>, members: map<int, seq<string>>,
                           users: set<string>, nextTeam: int, repos: map<int, nat>, sent: seq<string>,
                           trouble: Trouble)

  datatype Answer = Ok | Team(id: int) | TeamExists | UserIsMember | InviteExists | Other

  /** A Go map read: an absent team has no members. */
  function Members(r: Remote, team: int): seq<string> {
    if team in r.members then r.members[team] else []
  }

  function CreateTeam(r: Remote, name: string): (Remote, Answer) {
    if r.trouble.create then (r, Other)
    else if name in r.teams then (r, TeamExists)
    else
      (r.(teams := r.teams[name := r.nextTeam], nextTeam := r.nextTeam + 1,
          members := r.members[r.nextTeam := []]), Team(r.nextTeam))
  }

  function SendUserInvitation(r: Remote, email: string): (Remote, Answer) {
    var logged := r.(sent := r.sent + [email]);
    if email in r.trouble.send then (logged, Other)
    else if email in r.users then (logged, UserIsMember)
    else if email in r.invitations then (logged, InviteExists)
    else (logged.(invitations := r.invitations + {email}), Ok)
  }

  /** Teams are numbered in the order they are created. */
  lemma CreatedInTurn(r: Remote, a: string, b: string)
    requires !r.trouble.create && a !in r.teams && b !in r.teams && a != b
    ensures var (r1, first) := CreateTeam(r, a);
            var second := CreateTeam(r1, b).1;
            first.Team? && second == Team(first.id + 1)
  {
    assert CreateTeam(r, a).1 == Team(r.nextTeam);
  }

  /** An invitation that went out is answered as such when it is sent again, and as membership of the
      organisation once it is accepted; neither sends another one. */
  lemma SentAgain(r: Remote, e: string)
    requires SendUserInvitation(r, e).1.Ok?
    ensures var r1 := SendUserInvitation(r, e).0;
            var (r2, again) := SendUserInvitation(r1, e);
            var (r3, later) := SendUserInvitation(AcceptInvitation(r1, e), e);
            && e !in r.users && r1.invitations == r.invitations + {e}
            && again == InviteExists && r2 == r1.(sent := r1.sent + [e])
            && later == UserIsMember && r3 == AcceptInvitation(r1, e).(sent := r1.sent + [e])
  {
    assert e in SendUserInvitation(r, e).0.invitations;
  }

  /** The answer to "is an invitation pending"; a failed call reads as no. */
  predicate HasPendingInvitation(r: Remote, email: string) {
    email in r.invitations && email !in r.trouble.pending
  }

  function AddUserToTeam(r: Remote, team: int, email: string): (Remote, Answer) {
    if email in r.trouble.add || email !in r.users then (r, Other)
    else if email in Members(r, team) then (r, UserIsMember)
    else (r.(members := r.members[team := Members(r, team) + [email]]), Ok)
  }

  function AcceptInvitation(r: Remote, email: string): Remote {
    r.(invitations := r.invitations - {email}, users := r.users + {email})
  }

  ghost predicate GoodList(r: Remote, team: int) {
    NoRepeats(Members(r, team)) && forall e :: e in Members(r, team) ==> e in r.users
  }

  /** Invitations are for strangers, members are users listed once, and no two teams share an id. */
  ghost predicate ValidRemote(r: Remote) {
    && r.invitations !! r.users
    && (forall t :: t in r.members ==> t < r.nextTeam)
    && (forall t :: GoodList(r, t))
    && (forall n :: n in r.teams ==> r.teams[n] in r.members)
    && (forall n, m :: n in r.teams && m in r.teams && r.teams[n] == r.teams[m] ==> n == m)
  }

  lemma CreateKeepsValid(r: Remote, name: string)
    requires ValidRemote(r)
    ensures ValidRemote(CreateTeam(r, name).0)
  {
    var r1 := CreateTeam(r, name).0;
    forall t ensures GoodList(r1, t) {
      assert GoodList(r, t);
    }
  }

  lemma SendKeepsValid(r: Remote, email: string)
    requires ValidRemote(r)
    ensures ValidRemote(SendUserInvitation(r, email).0)
  {
    var r1 := SendUserInvitation(r, email).0;
    forall t ensures GoodList(r1, t) {
      assert GoodList(r, t);
    }
  }

  lemma AddKeepsValid(r: Remote, team: int, email: string)
    requires ValidRemote(r) && team < r.nextTeam
    ensures ValidRemote(AddUserToTeam(r, team, email).0)
  {
    var r1 := AddUserToTeam(r, team, email).0;
    forall t ensures GoodList(r1, t) {
      assert GoodList(r, t);
    }
  }

  lemma AcceptKeepsValid(r: Remote, email: string)
    requires ValidRemote(r)
    ensures ValidRemote(AcceptInvitation(r, email))
  {
    var r1 := AcceptInvitation(r, email);
    forall t ensures GoodList(r1, t) {
      assert GoodList(r, t);
    }
  }

  class Client {
    var teams: map<string, int>
    var invitations: set<string>
    var members: map<int, seq<string>>
    var users: set<string>
    var nextTeam: int
    var repos: map<int, nat>
    var sent: seq<string>
    const trouble: Trouble

    constructor (r: Remote)
      ensures Now() == r
    {
      teams, invitations, members, users := r.teams, r.invitations, r.members, r.users;
      nextTeam, repos, sent, trouble := r.nextTeam, r.repos, r.sent, r.trouble;
    }

    function Now(): Remote
      reads this
    {
      Remote(teams, invitations, members, users, nextTeam, repos, sent, trouble)
    }

    method Create(name: string) returns (answer: Answer)
      modifies this
      ensures (Now(), answer) == CreateTeam(old(Now()), name)
    {
      if trouble.create {
        return Other;
      }
      if name in teams {
        return TeamExists;
      }
      answer := Team(nextTeam);
      nextTeam := nextTeam + 1;
      teams := teams[name := answer.id];
      members := members[answer.id := []];
    }

    method Send(email: string) returns (answer: Answer)
      modifies this
      ensures (Now(), answer) == SendUserInvitation(old(Now()), email)
    {
      sent := sent + [email];
      if email in trouble.send {
        return Other;
      }
      if email in users {
        return UserIsMember;
      }
      if email in invitations {
        return InviteExists;
      }
      invitations := invitations + {email};
      answer := Ok;
    }

    method Add(team: int, email: string) returns (answer: Answer)
      modifies this
      ensures (Now(), answer) == AddUserToTeam(old(Now()), team, email)
    {
      if email in trouble.add || email !in users {
        return Other;
      }
      var list := Members(Now(), team);
      var i := 0;
      while i < |list|
        invariant 0 <= i <= |list| && email !in list[..i]
      {
        if list[i] == email {
          return UserIsMember;
        }
        i := i + 1;
      }
      members := members[team := list + [email]];
      answer := Ok;
    }

    /** The members of a team, or an error for a team the service does not know. */
    method FetchEmails(team: int) returns (known: bool, emails: seq<string>)
      ensures known == (!trouble.fetch && team in members)
      ensures known ==> emails == Members(Now(), team)
    {
      known := !trouble.fetch && team in members;
      emails := if known then members[team] else [];
    }
  }
}
