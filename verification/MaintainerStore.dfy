/** Adding and editing maintainers, and merging companies, in the database. */
module MaintainerStore {
  import opened Options
  import opened Text

  const NO_EMAIL := "EMAIL_MISSING"
  const NO_HANDLE := "GITHUB_MISSING"

  datatype Status = Active | Emeritus | Retired | Archived
  datatype Person = Person(name: string, email: string, handle: string, status: Status, company: Option<nat>,
                           projects: set<nat>)

  /** `retired` holds the names of soft-deleted companies, which the unique index still covers. */
  datatype Db = Db(projects: set<nat>, people: map<nat, Person>, companies: map<nat, string>, retired: set<string>,
                   nextPerson: nat, nextCompany: nat)

  /** Which database call fails, if any: one inside the transaction, the update, or the last read. */
  datatype Trouble = NoTrouble | InTransaction | InUpdate | InRead
  datatype Outcome = Saved(id: nat) | ProjectNotFound | CompanyNotFound | NotFound | DbFailure | SameCompany | Merged

  datatype Request = Request(project: nat, name: string, email: string, handle: string, company: string)

  predicate Blank(s: string) { Trim(s) == "" }

  function Normalize(value: string, sentinel: string): string {
    if Blank(value) then sentinel else Trim(value)
  }

  predicate Missing(value: string, sentinel: string) { value == "" || value == sentinel }

  /* ----- lookups: the lowest id wins ----- */

  predicate HasHandle(people: map<nat, Person>, id: nat, key: string) {
    id in people && Lower(people[id].handle) == key
  }

  predicate HasEmail(people: map<nat, Person>, id: nat, key: string) {
    id in people && Lower(people[id].email) == key
  }

  function FirstHandle(people: map<nat, Person>, key: string, i: nat, n: nat): (r: Option<nat>)
    requires i <= n
    ensures r.Some? ==> i <= r.value < n && HasHandle(people, r.value, key)
    ensures forall k :: i <= k < (if r.Some? then r.value else n) ==> !HasHandle(people, k, key)
    decreases n - i
  {
    if i == n then None
    else if HasHandle(people, i, key) then Some(i)
    else FirstHandle(people, key, i + 1, n)
  }

  function FirstEmail(people: map<nat, Person>, key: string, i: nat, n: nat): (r: Option<nat>)
    requires i <= n
    ensures r.Some? ==> i <= r.value < n && HasEmail(people, r.value, key)
    ensures forall k :: i <= k < (if r.Some? then r.value else n) ==> !HasEmail(people, k, key)
    decreases n - i
  {
    if i == n then None
    else if HasEmail(people, i, key) then Some(i)
    else FirstEmail(people, key, i + 1, n)
  }

  /** The existing maintainer a request is about: by handle, then by email. */
  function Target(db: Db, q: Request): Option<nat> {
    var byHandle := if q.handle != "" then FirstHandle(db.people, Lower(q.handle), 0, db.nextPerson) else None;
    if byHandle.Some? || q.email == "" then byHandle
    else FirstEmail(db.people, Lower(q.email), 0, db.nextPerson)
  }

  function FirstCompany(companies: map<nat, string>, name: string, i: nat, n: nat): (r: Option<nat>)
    requires i <= n
    ensures r.Some? ==> i <= r.value < n && r.value in companies && companies[r.value] == name
    ensures r.None? ==> forall k :: i <= k < n && k in companies ==> companies[k] != name
    decreases n - i
  {
    if i == n then None
    else if i in companies && companies[i] == name then Some(i)
    else FirstCompany(companies, name, i + 1, n)
  }

  lemma TargetExists(db: Db, q: Request)
    ensures Target(db, q).Some? ==> Target(db, q).value in db.people
  {
  }

  predicate NameTaken(db: Db, name: string) {
    name in db.retired || exists c :: c in db.companies && db.companies[c] == name
  }

  datatype Employer = Employer(db: Db, id: Option<nat>, ok: bool)

  /** Finds or creates the company. `stored` is the name the library writes into a new row. */
  function EnsureCompany(db: Db, company: string, stored: string): Employer {
    if company == "" then Employer(db, None, true)
    else
      var found := FirstCompany(db.companies, company, 0, db.nextCompany);
      if found.Some? then Employer(db, found, true)
      else if NameTaken(db, stored) then Employer(db, None, false)
      else
        Employer(db.(companies := db.companies[db.nextCompany := stored], nextCompany := db.nextCompany + 1),
                 Some(db.nextCompany), true)
  }

  /** The transaction: picks or creates the row and links the project. */
  function Link(db: Db, q: Request, target: Option<nat>, employer: Option<nat>): (out: (Db, nat))
    ensures out.1 in out.0.people
  {
    var id := if target.Some? then target.value else db.nextPerson;
    var row := if target.Some? && target.value in db.people then db.people[target.value]
               else Person(q.name, Normalize(q.email, NO_EMAIL), Normalize(q.handle, NO_HANDLE), Active, employer, {});
    (db.(people := db.people[id := row.(projects := row.projects + {q.project})],
         nextPerson := if target.Some? then db.nextPerson else db.nextPerson + 1), id)
  }

  function UpdateDetails(db: Db, id: nat, name: string, email: string, handle: string, status: Status,
                         company: Option<nat>, trouble: Trouble): (Db, Outcome)
  {
    if company.Some? && company.value !in db.companies then (db, CompanyNotFound)
    else if trouble.InUpdate? then (db, DbFailure)
    else if id !in db.people then (db, if trouble.InRead? then DbFailure else NotFound)
    else
      (db.(people := db.people[id := db.people[id].(name := Trim(name), email := Normalize(email, NO_EMAIL),
                                handle := Normalize(handle, NO_HANDLE), status := status, company := company)]),
       if trouble.InRead? then DbFailure else Saved(id))
  }

  /** The values written after the transaction: what is on file wins unless it is missing. */
  function Completed(row: Person, q: Request, employer: Option<nat>): Person {
    row.(name := if Blank(row.name) && !Blank(q.name) then q.name else row.name,
         handle := if Missing(row.handle, NO_HANDLE) && !Blank(q.handle) then q.handle else row.handle,
         email := if Missing(row.email, NO_EMAIL) && !Blank(q.email) then q.email else row.email,
         company := if row.company.None? then employer else row.company)
  }

  function Upsert(db: Db, q: Request, stored: string, trouble: Trouble): (Db, Outcome) {
    if q.project !in db.projects then (db, if trouble.InTransaction? then DbFailure else ProjectNotFound)
    else
      var employer := EnsureCompany(db, q.company, stored);
      if !employer.ok || trouble.InTransaction? then (db, DbFailure)
      else
        var (linked, id) := Link(employer.db, q, Target(db, q), employer.id);
        var final := Completed(linked.people[id], q, employer.id);
        UpdateDetails(linked, id, final.name, final.email, final.handle, final.status, final.company, trouble)
  }

  function Moved(people: map<nat, Person>, from: nat, to: nat): map<nat, Person> {
    map id | id in people ::
      if people[id].company == Some(from) then people[id].(company := Some(to)) else people[id]
  }

  function Merge(db: Db, from: nat, to: nat, trouble: Trouble): (Db, Outcome) {
    if from == to then (db, SameCompany)
    else if trouble.InTransaction? then (db, DbFailure)
    else if to !in db.companies || from !in db.companies then (db, CompanyNotFound)
    else
      (db.(people := Moved(db.people, from, to), companies := db.companies - {from},
           retired := db.retired + {db.companies[from]}), Merged)
  }

  /* ----- the store ----- */

  class SQLStore {
    var projects: set<nat>
    var people: map<nat, Person>
    var companies: map<nat, string>
    var retired: set<string>
    var nextPerson: nat
    var nextCompany: nat

    constructor (db: Db)
      ensures Now() == db
    {
      projects, people, companies := db.projects, db.people, db.companies;
      retired, nextPerson, nextCompany := db.retired, db.nextPerson, db.nextCompany;
    }

    function Now(): Db
      reads this
    {
      Db(projects, people, companies, retired, nextPerson, nextCompany)
    }

    method UpdateMaintainerDetails(id: nat, name: string, email: string, handle: string, status: Status,
                                   company: Option<nat>, trouble: Trouble) returns (out: Outcome)
      modifies this`people
      ensures (Now(), out) == UpdateDetails(old(Now()), id, name, email, handle, status, company, trouble)
    {
      if company.Some? && company.value !in companies {
        return CompanyNotFound;
      }
      if trouble.InUpdate? {
        return DbFailure;
      }
      if id in people {
        people := people[id := people[id].(name := Trim(name), email := Normalize(email, NO_EMAIL),
                               handle := Normalize(handle, NO_HANDLE), status := status, company := company)];
      }
      if trouble.InRead? {
        return DbFailure;
      }
      out := if id in people then Saved(id) else NotFound;
    }

    method FindMaintainer(q: Request) returns (found: Option<nat>)
      ensures found == Target(Now(), q)
    {
      found := None;
      if q.handle != "" {
        found := FirstHandle(people, Lower(q.handle), 0, nextPerson);
      }
      if found.None? && q.email != "" {
        found := FirstEmail(people, Lower(q.email), 0, nextPerson);
      }
    }

    method FindOrCreateCompany(company: string, stored: string) returns (id: Option<nat>, ok: bool)
      modifies this`companies, this`nextCompany
      ensures Employer(Now(), id, ok) == EnsureCompany(old(Now()), company, stored)
    {
      if company == "" {
        return None, true;
      }
      id := FirstCompany(companies, company, 0, nextCompany);
      if id.Some? {
        return id, true;
      }
      if NameTaken(Now(), stored) {
        return None, false;
      }
      id := Some(nextCompany);
      companies := companies[nextCompany := stored];
      nextCompany := nextCompany + 1;
      ok := true;
    }

    method LinkProject(q: Request, found: Option<nat>, employer: Option<nat>) returns (id: nat)
      requires found.Some? ==> found.value in people
      modifies this`people, this`nextPerson
      ensures (Now(), id) == Link(old(Now()), q, found, employer) && id in people
    {
      hide Normalize;
      var row;
      if found.Some? {
        id, row := found.value, people[found.value];
      } else {
        id := nextPerson;
        row := Person(q.name, Normalize(q.email, NO_EMAIL), Normalize(q.handle, NO_HANDLE), Active, employer, {});
        nextPerson := nextPerson + 1;
      }
      people := people[id := row.(projects := row.projects + {q.project})];
    }

    /** Fills only what is missing on file, then writes the row outside the transaction. */
    method FillIn(id: nat, q: Request, employer: Option<nat>, trouble: Trouble) returns (out: Outcome)
      requires id in people
      modifies this`people
      ensures var row := Completed(old(people)[id], q, employer);
              (Now(), out) == UpdateDetails(old(Now()), id, row.name, row.email, row.handle, row.status, row.company, trouble)
    {
      hide UpdateDetails, Blank;
      ghost var goal := Completed(people[id], q, employer);
      var row := people[id];
      var name, handle, email, company := row.name, row.handle, row.email, row.company;
      if Blank(name) && !Blank(q.name) {
        name := q.name;
      }
      if handle == "" || handle == NO_HANDLE {
        if !Blank(q.handle) {
          handle := q.handle;
        }
      }
      if email == "" || email == NO_EMAIL {
        if !Blank(q.email) {
          email := q.email;
        }
      }
      if company.None? {
        company := employer;
      }
      assert goal == row.(name := name, email := email, handle := handle, company := company);
      out := UpdateMaintainerDetails(id, name, email, handle, row.status, company, trouble);
    }

    method UpsertMaintainer(q: Request, stored: string, trouble: Trouble) returns (out: Outcome)
      modifies this
      ensures (Now(), out) == Upsert(old(Now()), q, stored, trouble)
    {
      hide Link, UpdateDetails, Completed;
      if q.project !in projects {
        return if trouble.InTransaction? then DbFailure else ProjectNotFound;
      }
      var savedCompanies, savedNext := companies, nextCompany;
      var found := FindMaintainer(q);
      TargetExists(Now(), q);
      var employer, ok := FindOrCreateCompany(q.company, stored);
      hide Target, EnsureCompany;
      if !ok || trouble.InTransaction? {
        companies, nextCompany := savedCompanies, savedNext;
        return DbFailure;
      }
      var id := LinkProject(q, found, employer);
      out := FillIn(id, q, employer, trouble);
    }

    method MergeCompanies(from: nat, to: nat, trouble: Trouble) returns (out: Outcome)
      modifies this
      ensures (Now(), out) == Merge(old(Now()), from, to, trouble)
    {
      if from == to {
        return SameCompany;
      }
      if trouble.InTransaction? {
        return DbFailure;
      }
      if to !in companies || from !in companies {
        return CompanyNotFound;
      }
      people := Moved(people, from, to);
      retired := retired + {companies[from]};
      companies := companies - {from};
      out := Merged;
    }
  }
}
