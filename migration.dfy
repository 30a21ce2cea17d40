/** Migrating legacy domains: staging rows are loaded from the legacy export, transferred
    into domains and invitations, invitations are picked up when their users log in, and
    a report compares the staging rows with what the tables hold. */
module Migration {
  import opened Strings

  /** A `TransitionDomain` staging row: the legacy domain and the username (an email)
      of its contact. */
  datatype TransitionDomain = TransitionDomain(domainName: string, username: string)

  /** A `DomainInvitation`: the email invited to a domain, and whether a user with that
      email has picked it up. */
  datatype Invitation = Invitation(email: string, domainName: string, retrieved: bool)

  /** The tables the migration reads and writes: staging rows, the names of `Domain`
      rows, the domain names of `DomainInformation` rows, invitations, and the emails of
      `User` rows. */
  datatype Tables = Tables(
    transitions: seq<TransitionDomain>,
    domains: seq<string>,
    informations: seq<string>,
    invitations: seq<Invitation>,
    users: seq<string>)

  const EmptyTables: Tables := Tables([], [], [], [], [])

  /** How many entries of `names` equal `name`: the length of a `filter(name=...)`. */
  function Count(names: seq<string>, name: string): (n: nat)
    ensures n <= |names|
    ensures n == 0 <==> name !in names
    decreases |names|
  {
    if names == [] then 0
    else Count(names[..|names| - 1], name) + (if names[|names| - 1] == name then 1 else 0)
  }

  /** Some invitation is for `email` on the domain named `name`. */
  predicate Invited(invitations: seq<Invitation>, email: string, name: string)
    decreases |invitations|
  {
    invitations != []
    && ((invitations[0].email == email && invitations[0].domainName == name)
        || Invited(invitations[1..], email, name))
  }

  lemma {:induction false} InvitedIff(invitations: seq<Invitation>, email: string, name: string)
    ensures Invited(invitations, email, name)
            <==> exists i :: 0 <= i < |invitations| && invitations[i].email == email && invitations[i].domainName == name
    decreases |invitations|
  {
    if invitations != [] {
      InvitedIff(invitations[1..], email, name);
      if Invited(invitations[1..], email, name) {
        var i :| 0 <= i < |invitations[1..]| && invitations[1..][i].email == email && invitations[1..][i].domainName == name;
        assert invitations[i + 1] == invitations[1..][i];
      }
      if exists i :: 0 <= i < |invitations| && invitations[i].email == email && invitations[i].domainName == name {
        var i :| 0 <= i < |invitations| && invitations[i].email == email && invitations[i].domainName == name;
        if i > 0 {
          assert invitations[1..][i - 1] == invitations[i];
        }
      }
    }
  }

  // ---------------------------------------------------------------------------------
  // The comparison report
  // ---------------------------------------------------------------------------------

  /** The four checks `compare_tables` makes on each staging row. */
  datatype Check = MissingDomain | DuplicateDomain | MissingInformation | MissingInvitation

  /** Whether `row` fails `check`: no domain carries its name, more than one does, no
      information row exists for that name, or no invitation exists for its lowercased
      username on that name. */
  predicate Fails(check: Check, t: Tables, row: TransitionDomain) {
    match check
    case MissingDomain => Count(t.domains, row.domainName) == 0
    case DuplicateDomain => Count(t.domains, row.domainName) > 1
    case MissingInformation => Count(t.informations, row.domainName) == 0
    case MissingInvitation => !Invited(t.invitations, Lower(row.username), row.domainName)
  }

  /** A row is never both missing its domain and duplicated. */
  lemma NeverMissingAndDuplicate(t: Tables, row: TransitionDomain)
    ensures !(Fails(MissingDomain, t, row) && Fails(DuplicateDomain, t, row))
    ensures Fails(MissingDomain, t, row) <==> row.domainName !in t.domains
    ensures Fails(MissingInformation, t, row) <==> row.domainName !in t.informations
  {
  }

  function Only(keep: bool, name: string): seq<string> {
    if keep then [name] else []
  }

  /** The list `compare_tables` fills for `check`: the names of the rows that fail it,
      in row order. */
  function Listed(check: Check, t: Tables, rows: seq<TransitionDomain>): (names: seq<string>)
    ensures |names| <= |rows|
    decreases |rows|
  {
    if rows == [] then []
    else Listed(check, t, rows[..|rows| - 1]) + Only(Fails(check, t, rows[|rows| - 1]), rows[|rows| - 1].domainName)
  }

  lemma ListedStep(check: Check, t: Tables, rows: seq<TransitionDomain>, i: nat)
    requires i < |rows|
    ensures Listed(check, t, rows[..i + 1]) == Listed(check, t, rows[..i]) + Only(Fails(check, t, rows[i]), rows[i].domainName)
  {
    assert rows[..i + 1][..i] == rows[..i];
  }

  /** A name is listed exactly when some staging row carries it and fails the check. */
  lemma {:induction false} ListedIff(check: Check, t: Tables, rows: seq<TransitionDomain>, name: string)
    ensures name in Listed(check, t, rows)
            <==> exists i :: 0 <= i < |rows| && rows[i].domainName == name && Fails(check, t, rows[i])
    decreases |rows|
  {
    if rows != [] {
      var n := |rows| - 1;
      var front := rows[..n];
      ListedIff(check, t, front, name);
      if exists i :: 0 <= i < |front| && front[i].domainName == name && Fails(check, t, front[i]) {
        var i :| 0 <= i < |front| && front[i].domainName == name && Fails(check, t, front[i]);
        assert rows[i] == front[i];
      }
      if exists i :: 0 <= i < |rows| && rows[i].domainName == name && Fails(check, t, rows[i]) {
        var i :| 0 <= i < |rows| && rows[i].domainName == name && Fails(check, t, rows[i]);
        if i < n {
          assert front[i] == rows[i];
        }
      }
    }
  }

  /** Every row adds at most one name to the missing and duplicate lists together. */
  lemma {:induction false} MissingPlusDuplicateAtMostRows(t: Tables, rows: seq<TransitionDomain>)
    ensures |Listed(MissingDomain, t, rows)| + |Listed(DuplicateDomain, t, rows)| <= |rows|
    decreases |rows|
  {
    if rows != [] {
      MissingPlusDuplicateAtMostRows(t, rows[..|rows| - 1]);
    }
  }

  /** When no row fails a check, its list is empty. */
  lemma {:induction false} NothingListed(check: Check, t: Tables, rows: seq<TransitionDomain>)
    requires forall i :: 0 <= i < |rows| ==> !Fails(check, t, rows[i])
    ensures Listed(check, t, rows) == []
    decreases |rows|
  {
    if rows != [] {
      NothingListed(check, t, rows[..|rows| - 1]);
    }
  }

  /** The four lists `compare_tables` fills. */
  datatype Report = Report(
    missingDomains: seq<string>,
    duplicateDomains: seq<string>,
    missingInformations: seq<string>,
    missingInvitations: seq<string>)

  function Discrepancies(t: Tables, rows: seq<TransitionDomain>): Report {
    Report(Listed(MissingDomain, t, rows), Listed(DuplicateDomain, t, rows),
           Listed(MissingInformation, t, rows), Listed(MissingInvitation, t, rows))
  }

  /** The totals `compare_tables` reads: staging rows, domains, informations and
      invitations. */
  datatype Totals = Totals(transitions: nat, domains: nat, informations: nat, invitations: nat)

  function TotalsOf(t: Tables): Totals {
    Totals(|t.transitions|, |t.domains|, |t.informations|, |t.invitations|)
  }

  /** The eight numbers the scenarios check: the four totals and the lengths of the four
      lists. */
  datatype Counts = Counts(totals: Totals, missingDomains: nat, duplicateDomains: nat,
                           missingInformations: nat, missingInvitations: nat)

  function CountsOf(t: Tables): Counts {
    var r := Discrepancies(t, t.transitions);
    Counts(TotalsOf(t), |r.missingDomains|, |r.duplicateDomains|, |r.missingInformations|, |r.missingInvitations|)
  }

  // ---------------------------------------------------------------------------------
  // The commands
  // ---------------------------------------------------------------------------------

  /** Adds each incoming staging row that is not already stored. */
  function Upsert(rows: seq<TransitionDomain>, incoming: seq<TransitionDomain>): (r: seq<TransitionDomain>)
    ensures |rows| <= |r| && r[..|rows|] == rows
    ensures forall x :: x in r <==> x in rows || x in incoming
    decreases |incoming|
  {
    if incoming == [] then rows
    else Upsert(if incoming[0] in rows then rows else rows + [incoming[0]], incoming[1..])
  }

  lemma {:induction false} UpsertPresent(rows: seq<TransitionDomain>, incoming: seq<TransitionDomain>)
    requires forall x :: x in incoming ==> x in rows
    ensures Upsert(rows, incoming) == rows
    decreases |incoming|
  {
    if incoming != [] {
      UpsertPresent(rows, incoming[1..]);
    }
  }

  /** Loading the same export a second time adds no staging rows. */
  lemma LoadIsIdempotent(rows: seq<TransitionDomain>, incoming: seq<TransitionDomain>)
    ensures Upsert(Upsert(rows, incoming), incoming) == Upsert(rows, incoming)
  {
    UpsertPresent(Upsert(rows, incoming), incoming);
  }

  /** `load_transition_domain`: stores the parsed rows of the legacy export. */
  function Load(t: Tables, incoming: seq<TransitionDomain>): (u: Tables)
    ensures u.(transitions := t.transitions) == t
  {
    t.(transitions := Upsert(t.transitions, incoming))
  }

  /** Whether transferring `row` invites its contact: it has a username, no user has
      that email yet, and no invitation exists for it on that domain. */
  predicate Invites(t: Tables, row: TransitionDomain) {
    row.username != [] && Lower(row.username) !in t.users
    && !Invited(t.invitations, Lower(row.username), row.domainName)
  }

  /** Transferring one staging row: creates its domain when none has its name, and its
      invitation when it invites. */
  function TransferRow(t: Tables, row: TransitionDomain): (u: Tables)
    ensures u.transitions == t.transitions && u.informations == t.informations && u.users == t.users
    ensures row.domainName in u.domains
  {
    t.(domains := if row.domainName in t.domains then t.domains else t.domains + [row.domainName],
       invitations := if Invites(t, row) then t.invitations + [Invitation(Lower(row.username), row.domainName, false)]
                      else t.invitations)
  }

  function TransferRows(t: Tables, rows: seq<TransitionDomain>): (u: Tables)
    ensures u.transitions == t.transitions && u.informations == t.informations && u.users == t.users
    decreases |rows|
  {
    if rows == [] then t else TransferRows(TransferRow(t, rows[0]), rows[1..])
  }

  /** `transfer_transition_domains_to_domains`: transfers every staging row. */
  function Transfer(t: Tables): (u: Tables)
    ensures u.transitions == t.transitions && u.informations == t.informations && u.users == t.users
  {
    TransferRows(t, t.transitions)
  }

  /** No two entries are equal. */
  predicate Distinct(names: seq<string>) {
    forall i, j :: 0 <= i < j < |names| ==> names[i] != names[j]
  }

  lemma {:induction false} CountDistinct(names: seq<string>, name: string)
    requires Distinct(names) && name in names
    ensures Count(names, name) == 1
    decreases |names|
  {
    var n := |names| - 1;
    if names[n] == name {
      assert name !in names[..n];
    } else {
      CountDistinct(names[..n], name);
    }
  }

  /** Transferring keeps the domain names distinct and creates one for every row. */
  lemma {:induction false} TransferRowsCoverRows(t: Tables, rows: seq<TransitionDomain>)
    requires Distinct(t.domains)
    ensures Distinct(TransferRows(t, rows).domains)
    ensures forall x :: x in t.domains ==> x in TransferRows(t, rows).domains
    ensures forall i :: 0 <= i < |rows| ==> rows[i].domainName in TransferRows(t, rows).domains
    decreases |rows|
  {
    if rows != [] {
      var u := TransferRow(t, rows[0]);
      TransferRowsCoverRows(u, rows[1..]);
      forall i | 0 <= i < |rows|
        ensures rows[i].domainName in TransferRows(t, rows).domains
      {
        if i > 0 {
          assert rows[i] == rows[1..][i - 1];
        }
      }
    }
  }

  /** After the transfer, starting from distinct domain names, every staging row has
      exactly one domain: nothing is missing and nothing is duplicated. */
  lemma TransferLeavesOneDomainPerName(t: Tables)
    requires Distinct(t.domains)
    ensures forall i :: 0 <= i < |t.transitions| ==> Count(Transfer(t).domains, t.transitions[i].domainName) == 1
    ensures Discrepancies(Transfer(t), t.transitions).missingDomains == []
    ensures Discrepancies(Transfer(t), t.transitions).duplicateDomains == []
  {
    var u := Transfer(t);
    TransferRowsCoverRows(t, t.transitions);
    forall i | 0 <= i < |t.transitions|
      ensures Count(u.domains, t.transitions[i].domainName) == 1
    {
      CountDistinct(u.domains, t.transitions[i].domainName);
    }
    NothingListed(MissingDomain, u, t.transitions);
    NothingListed(DuplicateDomain, u, t.transitions);
  }

  /** A user with `email` logs in: every invitation for that email not yet picked up is
      marked retrieved, and its domain gets an information row if it has none. */
  function Retrieve(invitations: seq<Invitation>, informations: seq<string>, email: string)
    : (r: (seq<Invitation>, seq<string>))
    ensures |r.0| == |invitations|
    ensures forall i :: 0 <= i < |invitations| ==>
              r.0[i] == (if invitations[i].email == email then invitations[i].(retrieved := true) else invitations[i])
    ensures |informations| <= |r.1| && r.1[..|informations|] == informations
    decreases |invitations|
  {
    if invitations == [] then (invitations, informations)
    else
      var inv := invitations[0];
      var informations' :=
        if inv.email == email && !inv.retrieved && inv.domainName !in informations
        then informations + [inv.domainName] else informations;
      var rest := Retrieve(invitations[1..], informations', email);
      assert informations'[..|informations|] == informations;
      assert rest.1[..|informations|] == rest.1[..|informations'|][..|informations|];
      var head := if inv.email == email then inv.(retrieved := true) else inv;
      var picked := [head] + rest.0;
      assert forall i :: 1 <= i < |invitations| ==> picked[i] == rest.0[i - 1] && invitations[i] == invitations[1..][i - 1];
      (picked, rest.1)
  }

  /** One pass of the login loop: the user is fetched or created, then
      `on_each_login` picks up the user's invitations. */
  function Login(t: Tables, email: string): (u: Tables)
    ensures u.transitions == t.transitions && u.domains == t.domains
    ensures |u.invitations| == |t.invitations|
    ensures email in u.users
  {
    var picked := Retrieve(t.invitations, t.informations, email);
    t.(users := if email in t.users then t.users else t.users + [email],
       invitations := picked.0, informations := picked.1)
  }

  /** Logging in with each email in turn, first to last. */
  function Logins(t: Tables, emails: seq<string>): (u: Tables)
    ensures u.transitions == t.transitions && u.domains == t.domains
    ensures |u.invitations| == |t.invitations|
    decreases |emails|
  {
    if emails == [] then t else Login(Logins(t, emails[..|emails| - 1]), emails[|emails| - 1])
  }

  /** The emails of a list of invitations. */
  function Emails(invitations: seq<Invitation>): (r: seq<string>)
    ensures |r| == |invitations|
    ensures forall i :: 0 <= i < |r| ==> r[i] == invitations[i].email
  {
    seq(|invitations|, i requires 0 <= i < |invitations| => invitations[i].email)
  }

  /** Logging in changes neither the staging rows nor the domains nor the number of
      invitations, so the domain totals and the domain checks of the report stay as
      they were. */
  lemma LoginsKeepDomains(t: Tables, emails: seq<string>)
    ensures TotalsOf(Logins(t, emails)).transitions == TotalsOf(t).transitions
    ensures TotalsOf(Logins(t, emails)).domains == TotalsOf(t).domains
    ensures TotalsOf(Logins(t, emails)).invitations == TotalsOf(t).invitations
    ensures Discrepancies(Logins(t, emails), t.transitions).missingDomains
            == Discrepancies(t, t.transitions).missingDomains
  {
    SameDomainsSameMissing(t, Logins(t, emails), t.transitions);
  }

  lemma {:induction false} SameDomainsSameMissing(t: Tables, u: Tables, rows: seq<TransitionDomain>)
    requires t.domains == u.domains
    ensures Listed(MissingDomain, u, rows) == Listed(MissingDomain, t, rows)
    ensures Listed(DuplicateDomain, u, rows) == Listed(DuplicateDomain, t, rows)
    decreases |rows|
  {
    if rows != [] {
      SameDomainsSameMissing(t, u, rows[..|rows| - 1]);
    }
  }

  /** The number of staging rows whose username is one of `emails`. */
  function Matching(rows: seq<TransitionDomain>, emails: seq<string>): (n: nat)
    ensures n <= |rows|
    decreases |rows|
  {
    if rows == [] then 0
    else Matching(rows[..|rows| - 1], emails) + (if rows[|rows| - 1].username in emails then 1 else 0)
  }

  /** The positions of the staging rows whose username is one of `emails`. */
  function MatchingRows(rows: seq<TransitionDomain>, emails: seq<string>): set<nat>
  {
    set i: nat | i < |rows| && rows[i].username in emails
  }

  /** `Matching` counts exactly the rows the username filter selects. */
  lemma {:induction false} MatchingCountsRows(rows: seq<TransitionDomain>, emails: seq<string>)
    ensures Matching(rows, emails) == |MatchingRows(rows, emails)|
    decreases |rows|
  {
    if rows != [] {
      var n := |rows| - 1;
      var front := rows[..n];
      MatchingCountsRows(front, emails);
      assert forall i: nat :: i < n ==> front[i] == rows[i];
      if rows[n].username in emails {
        assert MatchingRows(rows, emails) == MatchingRows(front, emails) + {n};
      } else {
        assert MatchingRows(rows, emails) == MatchingRows(front, emails);
      }
    }
  }

  /** The summary `send_domain_invitations` reports. */
  function FoundText(n: nat): string {
    "Found " + NatToString(n) + " transition domains"
  }

  // ---------------------------------------------------------------------------------
  // The legacy export of the scenarios
  // ---------------------------------------------------------------------------------

  const Site1: string := "fakewebsite1.gov"
  const Site2: string := "fakewebsite2.gov"
  const Site3: string := "fakewebsite3.gov"
  const Anomaly: string := "anomaly.gov"
  const Alexandra: string := "alexandra.bobbitt5@test.com"
  const Agustina: string := "agustina.wyman7@test.com"
  const Susy: string := "susy.martin4@test.com"
  const Stephania: string := "stephania.winters4@test.com"
  const Reginald: string := "reginald.ratcliff4@test.com"
  const TestUser: string := "testuser@gmail.com"

  /** Eight staging rows over four domains. The `anomaly.gov` row has no username, so
      the transfer creates no invitation for it. */
  const LegacyExport: seq<TransitionDomain> := [
    TransitionDomain(Site1, Alexandra),
    TransitionDomain(Site1, Agustina),
    TransitionDomain(Site1, Susy),
    TransitionDomain(Site2, Stephania),
    TransitionDomain(Site2, Alexandra),
    TransitionDomain(Site3, Reginald),
    TransitionDomain(Site3, TestUser),
    TransitionDomain(Anomaly, "")
  ]

  lemma UsernamesAreLowercase()
    ensures Lower(Alexandra) == Alexandra && Lower(Agustina) == Agustina && Lower(Susy) == Susy
    ensures Lower(Stephania) == Stephania && Lower(Reginald) == Reginald && Lower(TestUser) == TestUser
  {
    FirstUsernamesAreLowercase();
    LastUsernamesAreLowercase();
  }

  lemma FirstUsernamesAreLowercase()
    ensures Lower(Alexandra) == Alexandra && Lower(Agustina) == Agustina && Lower(Susy) == Susy
  {
    LowerOfLowercase(Alexandra);
    LowerOfLowercase(Agustina);
    LowerOfLowercase(Susy);
  }

  lemma LastUsernamesAreLowercase()
    ensures Lower(Stephania) == Stephania && Lower(Reginald) == Reginald && Lower(TestUser) == TestUser
  {
    LowerOfLowercase(Stephania);
    LowerOfLowercase(Reginald);
    LowerOfLowercase(TestUser);
  }

  /** Rows none of which is stored yet, and no two of which are equal, are all added. */
  lemma {:induction false} UpsertFresh(rows: seq<TransitionDomain>, incoming: seq<TransitionDomain>)
    requires forall i :: 0 <= i < |incoming| ==> incoming[i] !in rows
    requires forall i, j :: 0 <= i < j < |incoming| ==> incoming[i] != incoming[j]
    ensures Upsert(rows, incoming) == rows + incoming
    decreases |incoming|
  {
    if incoming != [] {
      var x, tail := incoming[0], incoming[1..];
      forall i | 0 <= i < |tail| ensures tail[i] !in rows + [x] {
        assert tail[i] == incoming[i + 1];
      }
      UpsertFresh(rows + [x], tail);
      assert rows + [x] + tail == rows + incoming;
    }
  }

  const Loaded: Tables := Tables(LegacyExport, [], [], [], [])

  lemma LoadComputes()
    ensures Load(EmptyTables, LegacyExport) == Loaded
  {
    UpsertFresh([], LegacyExport);
  }

  const Invitations: seq<Invitation> := [
    Invitation(Alexandra, Site1, false),
    Invitation(Agustina, Site1, false),
    Invitation(Susy, Site1, false),
    Invitation(Stephania, Site2, false),
    Invitation(Alexandra, Site2, false),
    Invitation(Reginald, Site3, false),
    Invitation(TestUser, Site3, false)
  ]

  /** No invitation in `invitations` is for `email` on `name`. */
  lemma NotInvited(invitations: seq<Invitation>, email: string, name: string)
    requires forall i :: 0 <= i < |invitations| ==> invitations[i].email != email || invitations[i].domainName != name
    ensures !Invited(invitations, email, name)
  {
    InvitedIff(invitations, email, name);
  }

  /** Transferring a row with a username whose invitation is not there yet, into tables
      without users, adds that invitation. */
  lemma TransferRowInvites(t: Tables, row: TransitionDomain, k: nat)
    requires k < |Invitations| && t.invitations == Invitations[..k] && t.users == []
    requires row.username != [] && Lower(row.username) == Invitations[k].email && row.domainName == Invitations[k].domainName
    requires forall i :: 0 <= i < k ==> Invitations[i].email != Invitations[k].email || Invitations[i].domainName != Invitations[k].domainName
    ensures TransferRow(t, row).invitations == Invitations[..k + 1]
  {
    NotInvited(t.invitations, Invitations[k].email, Invitations[k].domainName);
    assert Invitations[..k + 1] == Invitations[..k] + [Invitations[k]];
  }

  const Transferred: Tables := Tables(LegacyExport, [Site1, Site2, Site3, Anomaly], [], Invitations, [])

  /** The tables part-way through the transfer: the domains created so far and the
      first `k` invitations. */
  function Stage(domains: seq<string>, k: nat): Tables
    requires k <= |Invitations|
  {
    Loaded.(domains := domains, invitations := Invitations[..k])
  }

  lemma TransferFirstRows()
    ensures Transfer(Loaded) == TransferRows(Stage([Site1], 2), LegacyExport[2..])
  {
    UsernamesAreLowercase();
    var e := LegacyExport;
    TransferRowInvites(Loaded, e[0], 0);
    TransferRowInvites(Stage([Site1], 1), e[1], 1);
    assert TransferRow(Loaded, e[0]) == Stage([Site1], 1);
    assert TransferRow(Stage([Site1], 1), e[1]) == Stage([Site1], 2);
    assert e[1..][1..] == e[2..];
    assert TransferRows(Loaded, e) == TransferRows(Stage([Site1], 1), e[1..]);
    assert TransferRows(Stage([Site1], 1), e[1..]) == TransferRows(Stage([Site1], 2), e[2..]);
  }

  lemma TransferMiddleRows()
    ensures TransferRows(Stage([Site1], 2), LegacyExport[2..])
         == TransferRows(Stage([Site1, Site2], 4), LegacyExport[4..])
  {
    UsernamesAreLowercase();
    var e := LegacyExport;
    TransferRowInvites(Stage([Site1], 2), e[2], 2);
    TransferRowInvites(Stage([Site1], 3), e[3], 3);
    assert TransferRow(Stage([Site1], 2), e[2]) == Stage([Site1], 3);
    assert TransferRow(Stage([Site1], 3), e[3]) == Stage([Site1, Site2], 4);
    assert e[2..][1..] == e[3..] && e[3..][1..] == e[4..];
  }

  lemma TransferLateRows()
    ensures TransferRows(Stage([Site1, Site2], 4), LegacyExport[4..])
         == TransferRows(Stage([Site1, Site2, Site3], 6), LegacyExport[6..])
  {
    UsernamesAreLowercase();
    var e := LegacyExport;
    TransferRowInvites(Stage([Site1, Site2], 4), e[4], 4);
    TransferRowInvites(Stage([Site1, Site2], 5), e[5], 5);
    assert TransferRow(Stage([Site1, Site2], 4), e[4]) == Stage([Site1, Site2], 5);
    assert TransferRow(Stage([Site1, Site2], 5), e[5]) == Stage([Site1, Site2, Site3], 6);
    assert e[4..][1..] == e[5..] && e[5..][1..] == e[6..];
  }

  lemma TransferLastRows()
    ensures TransferRows(Stage([Site1, Site2, Site3], 6), LegacyExport[6..]) == Transferred
  {
    UsernamesAreLowercase();
    var e := LegacyExport;
    TransferRowInvites(Stage([Site1, Site2, Site3], 6), e[6], 6);
    assert TransferRow(Stage([Site1, Site2, Site3], 6), e[6]) == Stage([Site1, Site2, Site3], 7);
    assert Invitations[..7] == Invitations;
    assert TransferRow(Stage([Site1, Site2, Site3], 7), e[7]) == Transferred;
    assert e[6..][1..] == e[7..] && e[7..][1..] == [];
    assert TransferRows(Stage([Site1, Site2, Site3], 6), e[6..]) == TransferRows(Stage([Site1, Site2, Site3], 7), e[7..]);
    assert TransferRows(Stage([Site1, Site2, Site3], 7), e[7..]) == TransferRows(Transferred, []);
  }

  lemma TransferComputes()
    ensures Transfer(Loaded) == Transferred
  {
    TransferFirstRows();
    TransferMiddleRows();
    TransferLateRows();
    TransferLastRows();
  }

  // ---------------------------------------------------------------------------------
  // What the logins leave behind
  // ---------------------------------------------------------------------------------

  /** Some invitation for `email` on the domain `name` is not picked up yet. */
  ghost predicate PickedDomain(invitations: seq<Invitation>, email: string, name: string) {
    exists i :: 0 <= i < |invitations| && invitations[i].email == email
                && !invitations[i].retrieved && invitations[i].domainName == name
  }

  lemma PickedDomainFirst(invitations: seq<Invitation>, email: string, name: string)
    requires invitations != []
    ensures PickedDomain(invitations, email, name) <==>
              (invitations[0].email == email && !invitations[0].retrieved && invitations[0].domainName == name)
              || PickedDomain(invitations[1..], email, name)
  {
    var tail := invitations[1..];
    if PickedDomain(tail, email, name) {
      var i :| 0 <= i < |tail| && tail[i].email == email && !tail[i].retrieved && tail[i].domainName == name;
      assert invitations[i + 1] == tail[i];
    }
    if PickedDomain(invitations, email, name) {
      var i :| 0 <= i < |invitations| && invitations[i].email == email
               && !invitations[i].retrieved && invitations[i].domainName == name;
      if i > 0 {
        assert tail[i - 1] == invitations[i];
      }
    }
  }

  /** A login adds exactly the domains of the matching invitations not yet picked up,
      and never a second information row for a domain. */
  lemma {:induction false} RetrieveAddsPickedDomains(invitations: seq<Invitation>, informations: seq<string>, email: string)
    ensures forall x :: x in Retrieve(invitations, informations, email).1 <==>
              (x in informations || PickedDomain(invitations, email, x))
    ensures Distinct(informations) ==> Distinct(Retrieve(invitations, informations, email).1)
    decreases |invitations|
  {
    if invitations != [] {
      var inv := invitations[0];
      var informations' :=
        if inv.email == email && !inv.retrieved && inv.domainName !in informations
        then informations + [inv.domainName] else informations;
      var tail := invitations[1..];
      RetrieveAddsPickedDomains(tail, informations', email);
      var r := Retrieve(invitations, informations, email).1;
      assert r == Retrieve(tail, informations', email).1;
      forall x
        ensures x in r <==> (x in informations || PickedDomain(invitations, email, x))
      {
        PickedDomainFirst(invitations, email, x);
      }
    }
  }

  /** What holds after logging in with the emails in `seen`, starting from tables where
      no invitation is picked up and no domain has an information row: the invitations
      keep their emails and domains, exactly those of the emails seen are picked up, and
      the information rows are, once each, the domains of the picked-up invitations. */
  ghost predicate PickedUp(t: Tables, u: Tables, seen: seq<string>) {
    |u.invitations| == |t.invitations|
    && (forall i :: 0 <= i < |u.invitations| ==>
          u.invitations[i].email == t.invitations[i].email
          && u.invitations[i].domainName == t.invitations[i].domainName
          && (u.invitations[i].retrieved <==> t.invitations[i].email in seen))
    && (forall x :: x in u.informations <==>
          exists i :: 0 <= i < |u.invitations| && u.invitations[i].retrieved && u.invitations[i].domainName == x)
    && Distinct(u.informations)
  }

  /** One more login keeps `PickedUp`, with its email now seen. */
  lemma LoginPicksUp(t: Tables, u: Tables, seen: seq<string>, e: string)
    requires PickedUp(t, u, seen)
    ensures PickedUp(t, Login(u, e), seen + [e])
  {
    var v := Login(u, e);
    RetrieveAddsPickedDomains(u.invitations, u.informations, e);
    forall i | 0 <= i < |t.invitations|
      ensures t.invitations[i].email in seen + [e] <==> t.invitations[i].email in seen || t.invitations[i].email == e
    {
    }
    forall x
      ensures x in v.informations <==>
        exists i :: 0 <= i < |v.invitations| && v.invitations[i].retrieved && v.invitations[i].domainName == x
    {
      if x in v.informations && x in u.informations {
        var i :| 0 <= i < |u.invitations| && u.invitations[i].retrieved && u.invitations[i].domainName == x;
        assert v.invitations[i].retrieved && v.invitations[i].domainName == x;
      }
      if exists i :: 0 <= i < |v.invitations| && v.invitations[i].retrieved && v.invitations[i].domainName == x {
        var i :| 0 <= i < |v.invitations| && v.invitations[i].retrieved && v.invitations[i].domainName == x;
        if !u.invitations[i].retrieved {
          assert u.invitations[i].email == e;
        } else {
          assert x in u.informations;
        }
      }
    }
  }

  lemma {:induction false} LoginsPickUp(t: Tables, emails: seq<string>)
    requires t.informations == []
    requires forall i :: 0 <= i < |t.invitations| ==> !t.invitations[i].retrieved
    ensures PickedUp(t, Logins(t, emails), emails)
    decreases |emails|
  {
    if emails != [] {
      var n := |emails| - 1;
      LoginsPickUp(t, emails[..n]);
      LoginPicksUp(t, Logins(t, emails[..n]), emails[..n], emails[n]);
      assert Logins(t, emails) == Login(Logins(t, emails[..n]), emails[n]);
      assert emails[..n] + [emails[n]] == emails;
    }
  }

  /** After every invitation's user has logged in, every invitation is picked up and the
      information rows are, once each, exactly the invited domains. */
  lemma EveryInvitedDomainInformed(t: Tables)
    requires t.informations == []
    requires forall i :: 0 <= i < |t.invitations| ==> !t.invitations[i].retrieved
    ensures var u := Logins(t, Emails(t.invitations));
            && (forall i :: 0 <= i < |u.invitations| ==> u.invitations[i].retrieved)
            && (forall x :: x in u.informations <==> InvitedDomain(t.invitations, x))
            && Distinct(u.informations)
  {
    var emails := Emails(t.invitations);
    LoginsPickUp(t, emails);
    var u := Logins(t, emails);
    forall i | 0 <= i < |u.invitations| ensures u.invitations[i].retrieved {
      assert emails[i] == t.invitations[i].email;
    }
    forall x
      ensures x in u.informations <==> InvitedDomain(t.invitations, x)
    {
      if InvitedDomain(t.invitations, x) {
        var i :| 0 <= i < |t.invitations| && t.invitations[i].domainName == x;
        assert u.invitations[i].retrieved && u.invitations[i].domainName == x;
      }
    }
  }

  /** Tables whose invitations agree on emails and domains agree on which rows lack an
      invitation. */
  lemma {:induction false} SameInvitationsSameMissing(t: Tables, u: Tables, rows: seq<TransitionDomain>)
    requires |t.invitations| == |u.invitations|
    requires forall i :: 0 <= i < |t.invitations| ==>
               u.invitations[i].email == t.invitations[i].email
               && u.invitations[i].domainName == t.invitations[i].domainName
    ensures Listed(MissingInvitation, u, rows) == Listed(MissingInvitation, t, rows)
    decreases |rows|
  {
    if rows != [] {
      var row := rows[|rows| - 1];
      SameInvitationsSameMissing(t, u, rows[..|rows| - 1]);
      InvitedIff(t.invitations, Lower(row.username), row.domainName);
      InvitedIff(u.invitations, Lower(row.username), row.domainName);
    }
  }

  /** A list without repeats that holds exactly the elements of a set is as long as the
      set is large. */
  lemma {:induction false} DistinctLength(names: seq<string>, elements: set<string>)
    requires Distinct(names)
    requires forall x :: x in names <==> x in elements
    ensures |names| == |elements|
    decreases |names|
  {
    if names != [] {
      var n := |names| - 1;
      assert names[n] !in names[..n];
      DistinctLength(names[..n], elements - {names[n]});
    }
  }

  /** When every row fails a check, every row is listed. */
  lemma {:induction false} EverythingListed(check: Check, t: Tables, rows: seq<TransitionDomain>)
    requires forall i :: 0 <= i < |rows| ==> Fails(check, t, rows[i])
    ensures |Listed(check, t, rows)| == |rows|
    decreases |rows|
  {
    if rows != [] {
      EverythingListed(check, t, rows[..|rows| - 1]);
    }
  }

  /** When only the last of the rows fails a check, only its name is listed. */
  lemma OnlyLastListed(check: Check, t: Tables, rows: seq<TransitionDomain>)
    requires |rows| >= 1
    requires forall i :: 0 <= i < |rows| - 1 ==> !Fails(check, t, rows[i])
    requires Fails(check, t, rows[|rows| - 1])
    ensures Listed(check, t, rows) == [rows[|rows| - 1].domainName]
  {
    NothingListed(check, t, rows[..|rows| - 1]);
  }

  // ---------------------------------------------------------------------------------
  // The scenarios of the migration tests
  // ---------------------------------------------------------------------------------

  /** Each staging row but the last has its invitation among `Invitations`, at the same
      position. */
  lemma RowsMatchInvitations()
    ensures forall i :: 0 <= i < 7 ==>
              Lower(LegacyExport[i].username) == Invitations[i].email
              && LegacyExport[i].domainName == Invitations[i].domainName
  {
    UsernamesAreLowercase();
  }

  /** Whether the rows lack an invitation, for any tables whose invitations have the
      emails and domains of `Invitations`: only `anomaly.gov` does. */
  lemma OnlyAnomalyUninvited(t: Tables)
    requires |t.invitations| == |Invitations|
    requires forall i :: 0 <= i < |Invitations| ==>
               t.invitations[i].email == Invitations[i].email && t.invitations[i].domainName == Invitations[i].domainName
    ensures Listed(MissingInvitation, t, LegacyExport) == [Anomaly]
  {
    RowsMatchInvitations();
    forall i | 0 <= i < 7 ensures !Fails(MissingInvitation, t, LegacyExport[i]) {
      InvitedIff(t.invitations, Lower(LegacyExport[i].username), LegacyExport[i].domainName);
    }
    assert Lower("") == "";
    NotInvited(t.invitations, "", Anomaly);
    OnlyLastListed(MissingInvitation, t, LegacyExport);
  }

  /** After loading: eight staging rows and nothing else, so every row misses its
      domain, its information and its invitation. */
  lemma LoadScenario()
    ensures CountsOf(Load(EmptyTables, LegacyExport)) == Counts(Totals(8, 0, 0, 0), 8, 0, 8, 8)
  {
    LoadComputes();
    EverythingListed(MissingDomain, Loaded, LegacyExport);
    NothingListed(DuplicateDomain, Loaded, LegacyExport);
    EverythingListed(MissingInformation, Loaded, LegacyExport);
    EverythingListed(MissingInvitation, Loaded, LegacyExport);
  }

  /** After the transfer: four domains and seven invitations; no row misses its domain,
      every row misses its information, and only `anomaly.gov` misses an invitation. */
  lemma TransferScenario()
    ensures CountsOf(Transfer(Loaded)) == Counts(Totals(8, 4, 0, 7), 0, 0, 8, 1)
  {
    TransferComputes();
    TransferLeavesOneDomainPerName(Loaded);
    EverythingListed(MissingInformation, Transferred, LegacyExport);
    OnlyAnomalyUninvited(Transferred);
  }

  /** The master migration, loading then transferring, ends where the transfer does. */
  lemma MasterScenario()
    ensures CountsOf(Transfer(Load(EmptyTables, LegacyExport))) == Counts(Totals(8, 4, 0, 7), 0, 0, 8, 1)
  {
    LoadComputes();
    TransferScenario();
  }

  /** Some invitation is on the domain `name`. */
  ghost predicate InvitedDomain(invitations: seq<Invitation>, name: string) {
    exists i :: 0 <= i < |invitations| && invitations[i].domainName == name
  }

  /** The domains of the invitations are the three test sites. */
  lemma InvitedDomains()
    ensures forall x :: InvitedDomain(Invitations, x) <==> x in {Site1, Site2, Site3}
    ensures |{Site1, Site2, Site3}| == 3
  {
    assert Invitations[0].domainName == Site1 && Invitations[3].domainName == Site2 && Invitations[5].domainName == Site3;
  }

  /** After every invited user logs in, the three test sites have one information row
      each and `anomaly.gov` has none. */
  lemma LoginsInformSites()
    ensures var u := Logins(Transferred, Emails(Invitations));
            && |u.informations| == 3
            && Site1 in u.informations && Site2 in u.informations && Site3 in u.informations
            && Anomaly !in u.informations
  {
    EveryInvitedDomainInformed(Transferred);
    SitesInformed(Logins(Transferred, Emails(Invitations)).informations);
  }

  /** Information rows that are, once each, the domains of `Invitations` are one for each
      test site. */
  lemma SitesInformed(informations: seq<string>)
    requires forall x :: x in informations <==> InvitedDomain(Invitations, x)
    requires Distinct(informations)
    ensures |informations| == 3
    ensures Site1 in informations && Site2 in informations && Site3 in informations
    ensures Anomaly !in informations
  {
    InvitedDomains();
    var sites := {Site1, Site2, Site3};
    assert forall x :: x in informations <==> x in sites;
    DistinctLength(informations, sites);
  }

  /** The counts of any tables that keep the staging rows, domains and invitations of
      the transfer and hold one information row for each test site and none for
      `anomaly.gov`. */
  lemma CountsWithSitesInformed(u: Tables)
    requires u.transitions == LegacyExport && u.domains == Transferred.domains
    requires |u.invitations| == |Invitations|
    requires forall i :: 0 <= i < |Invitations| ==>
               u.invitations[i].email == Invitations[i].email && u.invitations[i].domainName == Invitations[i].domainName
    requires |u.informations| == 3 && Anomaly !in u.informations
    requires Site1 in u.informations && Site2 in u.informations && Site3 in u.informations
    ensures CountsOf(u) == Counts(Totals(8, 4, 3, 7), 0, 0, 1, 1)
  {
    TransferComputes();
    TransferScenario();
    SameDomainsSameMissing(Transferred, u, LegacyExport);
    OnlyAnomalyUninformed(u);
    OnlyAnomalyUninvited(u);
  }

  /** With information rows for the three test sites and none for `anomaly.gov`, only
      `anomaly.gov` misses its information. */
  lemma OnlyAnomalyUninformed(u: Tables)
    requires Site1 in u.informations && Site2 in u.informations && Site3 in u.informations
    requires Anomaly !in u.informations
    ensures Listed(MissingInformation, u, LegacyExport) == [Anomaly]
  {
    RowsOnSites();
    OnlyLastListed(MissingInformation, u, LegacyExport);
  }

  /** Every staging row but the last is on one of the three test sites. */
  lemma RowsOnSites()
    ensures forall i :: 0 <= i < 7 ==> LegacyExport[i].domainName in {Site1, Site2, Site3}
  {
  }

  /** After every invited user logs in: three information rows, one per test site, so
      only `anomaly.gov` misses its information; domains and invitations are as the
      transfer left them. */
  lemma LoginScenario()
    ensures CountsOf(Logins(Transferred, Emails(Invitations))) == Counts(Totals(8, 4, 3, 7), 0, 0, 1, 1)
  {
    LoginsInformSites();
    LoginsPickUp(Transferred, Emails(Invitations));
    CountsWithSitesInformed(Logins(Transferred, Emails(Invitations)));
  }

  lemma MatchingStep(rows: seq<TransitionDomain>, emails: seq<string>, i: nat)
    requires i < |rows|
    ensures Matching(rows[..i + 1], emails) == Matching(rows[..i], emails) + (if rows[i].username in emails then 1 else 0)
  {
    assert rows[..i + 1][..i] == rows[..i];
  }

  /** Only the last-but-one row belongs to the test user. */
  lemma MatchingTestUser()
    ensures Matching(LegacyExport, [TestUser]) == 1
  {
    var e, m := LegacyExport, [TestUser];
    MatchingStep(e, m, 0); MatchingStep(e, m, 1); MatchingStep(e, m, 2); MatchingStep(e, m, 3);
    MatchingStep(e, m, 4); MatchingStep(e, m, 5); MatchingStep(e, m, 6); MatchingStep(e, m, 7);
    assert e[..0] == [] && e[..8] == e;
  }

  /** The test user and Agustina each have one row. */
  lemma MatchingTestUserAndAgustina()
    ensures Matching(LegacyExport, [TestUser, Agustina]) == 2
  {
    var e, m := LegacyExport, [TestUser, Agustina];
    MatchingStep(e, m, 0); MatchingStep(e, m, 1); MatchingStep(e, m, 2); MatchingStep(e, m, 3);
    MatchingStep(e, m, 4); MatchingStep(e, m, 5); MatchingStep(e, m, 6); MatchingStep(e, m, 7);
    assert e[..0] == [] && e[..8] == e;
  }

  /** `send_domain_invitations` for the test user finds one staging row, and for the
      test user and another user two. */
  lemma SendScenario()
    ensures FoundText(Matching(LegacyExport, [TestUser])) == "Found " + "1" + " transition domains"
    ensures FoundText(Matching(LegacyExport, [TestUser, Agustina])) == "Found " + "2" + " transition domains"
  {
    MatchingTestUser();
    MatchingTestUserAndAgustina();
    assert NatToString(1) == "1" && NatToString(2) == "2";
  }

  // ---------------------------------------------------------------------------------
  // The tables as the commands and the comparison see them
  // ---------------------------------------------------------------------------------

  class Database {
    var transitions: seq<TransitionDomain>
    var domains: seq<string>
    var informations: seq<string>
    var invitations: seq<Invitation>
    var users: seq<string>

    constructor()
      ensures Snapshot() == EmptyTables
    {
      transitions, domains, informations, invitations, users := [], [], [], [], [];
    }

    function Snapshot(): Tables
      reads this
    {
      Tables(transitions, domains, informations, invitations, users)
    }

    method Assign(t: Tables)
      modifies this
      ensures Snapshot() == t
    {
      transitions, domains, informations, invitations, users := t.transitions, t.domains, t.informations, t.invitations, t.users;
    }

    /** `load_transition_domain` with the rows parsed from the three export files. */
    method LoadTransitionDomains(incoming: seq<TransitionDomain>)
      modifies this
      ensures Snapshot() == Load(old(Snapshot()), incoming)
    {
      transitions := Upsert(transitions, incoming);
    }

    /** `transfer_transition_domains_to_domains`. */
    method TransferDomains()
      modifies this
      ensures Snapshot() == Transfer(old(Snapshot()))
    {
      Assign(Transfer(Snapshot()));
    }

    /** One user logs in: fetched or created by email, then their invitations are
        picked up. */
    method LogIn(email: string)
      modifies this
      ensures Snapshot() == Login(old(Snapshot()), email)
    {
      if email !in users {
        users := users + [email];
      }
      var picked := Retrieve(invitations, informations, email);
      invitations, informations := picked.0, picked.1;
    }

    /** The login loop: for every invitation, fetch or create the user with its email
        and run the login hook. */
    method SimulateLogins()
      modifies this
      ensures Snapshot() == Logins(old(Snapshot()), Emails(old(invitations)))
    {
      var invites := invitations;
      var emails := Emails(invites);
      ghost var start := Snapshot();
      var k := 0;
      while k < |invites|
        invariant 0 <= k <= |invites|
        invariant Snapshot() == Logins(start, emails[..k])
      {
        LogIn(invites[k].email);
        assert emails[..k + 1][..k] == emails[..k];
        k := k + 1;
      }
      assert emails[..k] == emails;
    }

    /** `compare_tables`: walks the staging rows, filling the four lists, then reads
        the totals. */
    method CompareTables() returns (report: Report, totals: Totals)
      ensures report == Discrepancies(Snapshot(), transitions)
      ensures totals == TotalsOf(Snapshot())
    {
      ghost var t := Snapshot();
      var missingDomains, duplicateDomains, missingInformations, missingInvites := [], [], [], [];
      var i := 0;
      while i < |transitions|
        invariant 0 <= i <= |transitions|
        invariant missingDomains == Listed(MissingDomain, t, transitions[..i])
        invariant duplicateDomains == Listed(DuplicateDomain, t, transitions[..i])
        invariant missingInformations == Listed(MissingInformation, t, transitions[..i])
        invariant missingInvites == Listed(MissingInvitation, t, transitions[..i])
      {
        var row := transitions[i];
        var matching := Count(domains, row.domainName);
        var matchingInformations := Count(informations, row.domainName);
        var invited := Invited(invitations, Lower(row.username), row.domainName);
        missingDomains := missingDomains + Only(matching == 0, row.domainName);
        duplicateDomains := duplicateDomains + Only(matching > 1, row.domainName);
        missingInformations := missingInformations + Only(matchingInformations == 0, row.domainName);
        missingInvites := missingInvites + Only(!invited, row.domainName);
        ListedStep(MissingDomain, t, transitions, i);
        ListedStep(DuplicateDomain, t, transitions, i);
        ListedStep(MissingInformation, t, transitions, i);
        ListedStep(MissingInvitation, t, transitions, i);
        i := i + 1;
      }
      assert transitions[..i] == transitions;
      report := Report(missingDomains, duplicateDomains, missingInformations, missingInvites);
      totals := TotalsOf(Snapshot());
    }

    /** `send_domain_invitations` for a list of emails: reports how many staging rows
        belong to them. */
    method SendDomainInvitations(emails: seq<string>) returns (output: string)
      ensures output == FoundText(|MatchingRows(transitions, emails)|)
    {
      MatchingCountsRows(transitions, emails);
      output := FoundText(Matching(transitions, emails));
    }
  }

  /** The eight numbers of a comparison. */
  function CountsFrom(report: Report, totals: Totals): Counts {
    Counts(totals, |report.missingDomains|, |report.duplicateDomains|,
           |report.missingInformations|, |report.missingInvitations|)
  }

  /** The migration end to end on a fresh database: load the legacy export, transfer
      it, compare, let every invited user log in, compare again. */
  method MigrateLegacyExport() returns (afterTransfer: Counts, afterLogins: Counts)
    ensures afterTransfer == Counts(Totals(8, 4, 0, 7), 0, 0, 8, 1)
    ensures afterLogins == Counts(Totals(8, 4, 3, 7), 0, 0, 1, 1)
  {
    var db := new Database();
    db.LoadTransitionDomains(LegacyExport);
    db.TransferDomains();
    MasterScenario();
    var report, totals := db.CompareTables();
    afterTransfer := CountsFrom(report, totals);
    LoadComputes();
    TransferComputes();
    db.SimulateLogins();
    LoginScenario();
    report, totals := db.CompareTables();
    afterLogins := CountsFrom(report, totals);
  }
}
