/** People of suliko.ge and their accounts here: src/suliko/domain/accounts.py and
    src/suliko/domain/suliko_import.py. An account's id is its place in the table; a lookup that
    matches several takes the first. */
module SulikoAccounts {
  import opened Options

  /** A sign-in: an address, lower-cased, or a phone number as it was typed, trimmed. */
  datatype Login = Email(address: string) | Phone(typed: string)

  datatype Person = Person(id: string, login: Login)

  datatype Account = Account(email: Option<string>, phone: Option<string>, suliko: Option<string>)

  // ---- Phone numbers ----

  predicate IsDigit(c: char) { '0' <= c <= '9' }

  function Digits(s: string): string {
    if s == [] then [] else (if IsDigit(s[0]) then [s[0]] else []) + Digits(s[1..])
  }

  /** Without the country's code and the trunk zero. */
  function Local(digits: string): string {
    var local := if "995" <= digits && |digits| == 12 then digits[3..] else digits;
    if |local| == 10 && "05" <= local then local[1..] else local
  }

  /** The spellings a number is looked up under; junk only as it was typed. */
  function PhoneVariants(typed: string): set<string> {
    var digits := Digits(typed);
    if |digits| < 6 then (if typed == "" then {} else {typed})
    else
      var local := Local(digits);
      {typed, digits, local, if |local| == 9 then "0" + local else local, "+995" + local, "995" + local}
  }

  predicate AllDigits(s: string) {
    forall i | 0 <= i < |s| :: IsDigit(s[i])
  }

  lemma {:induction false} DigitsOf(s: string)
    requires AllDigits(s)
    ensures Digits(s) == s
  {
    if s != [] { DigitsOf(s[1..]); }
  }

  lemma PrefixDigit(c: char, s: string)
    requires AllDigits(s)
    ensures Digits([c] + s) == if IsDigit(c) then [c] + s else s
  {
    DigitsOf(s);
    assert ([c] + s)[1..] == s;
  }

  /** The four spellings of a nine-digit number. */
  function Spellings(n: string): set<string> {
    {n, "0" + n, "+995" + n, "995" + n}
  }

  /** However a Georgian mobile is typed, each of its spellings finds it; the spelling with the
      trunk zero does so exactly when the number begins with a 5. */
  lemma SpellingsMeet(n: string, typed: string)
    requires |n| == 9 && AllDigits(n) && typed in Spellings(n)
    ensures Spellings(n) <= PhoneVariants(typed) <==> typed != "0" + n || n[0] == '5'
  {
    DigitsOf(n);
    var national := "995" + n;
    assert AllDigits(national);
    DigitsOf(national);
    if typed == n {
      assert Local(n) == n;
    } else if typed == national {
      assert national[3..] == n;
    } else if typed == "+995" + n {
      PrefixDigit('+', national);
      assert ['+'] + national == "+995" + n;
      assert national[3..] == n;
    } else {
      TrunkMeets(n);
    }
  }

  lemma TrunkMeets(n: string)
    requires |n| == 9 && AllDigits(n)
    ensures Spellings(n) <= PhoneVariants("0" + n) <==> n[0] == '5'
  {
    var typed := "0" + n;
    PrefixDigit('0', n);
    assert typed == ['0'] + n && typed[1..] == n && typed[1] == n[0];
    assert Digits(typed) == typed;
    if n[0] == '5' {
      assert typed[..2] == "05";
      assert Local(typed) == n;
    } else {
      assert !("05" <= typed);
      assert Local(typed) == typed;
      assert |n| == 9;
      assert n !in PhoneVariants(typed);
    }
  }

  // ---- Lookups ----

  predicate Matches(a: Account, login: Login) {
    match login
    case Email(address) => a.email == Some(address)
    case Phone(typed) => a.phone.Some? && a.phone.value in PhoneVariants(typed)
  }

  /** `find_account_by_login` */
  function FindByLogin(accounts: seq<Account>, login: Login): (found: Option<nat>)
    ensures found.Some? ==> found.value < |accounts| && Matches(accounts[found.value], login)
                            && forall i | 0 <= i < found.value :: !Matches(accounts[i], login)
    ensures found.None? ==> forall i | 0 <= i < |accounts| :: !Matches(accounts[i], login)
  {
    if accounts == [] then None
    else
      var rest := FindByLogin(accounts[..|accounts| - 1], login);
      if rest.Some? then rest
      else if Matches(accounts[|accounts| - 1], login) then Some(|accounts| - 1) else None
  }

  /** `find_account_by_suliko_id` */
  function FindById(accounts: seq<Account>, id: string): (found: Option<nat>)
    ensures found.Some? ==> found.value < |accounts| && accounts[found.value].suliko == Some(id)
    ensures found.None? ==> forall i | 0 <= i < |accounts| :: accounts[i].suliko != Some(id)
  {
    if accounts == [] then None
    else
      var rest := FindById(accounts[..|accounts| - 1], id);
      if rest.Some? then rest
      else if accounts[|accounts| - 1].suliko == Some(id) then Some(|accounts| - 1) else None
  }

  // ---- One person ----

  datatype Outcome = Already(account: nat) | Linked(account: nat) | Created(account: nat) | Conflict

  /** What becomes of a person, by the accounts as they are. */
  function Decide(accounts: seq<Account>, p: Person): Outcome {
    var known := FindById(accounts, p.id);
    if known.Some? then Already(known.value)
    else
      var office := FindByLogin(accounts, p.login);
      if office.None? then Created(|accounts|)
      else if accounts[office.value].suliko.None? then Linked(office.value) else Conflict
  }

  function NewAccount(p: Person): Account {
    match p.login
    case Email(address) => Account(Some(address), None, Some(p.id))
    case Phone(typed) => Account(None, Some(typed), Some(p.id))
  }

  /** `link_account_to_suliko`: the account gains a phone only if it had none. */
  function LinkTo(a: Account, p: Person): Account {
    a.(suliko := Some(p.id),
       phone := if p.login.Phone? && p.login.typed != "" && (a.phone.None? || a.phone.value == "") then Some(p.login.typed) else a.phone)
  }

  function Upserted(accounts: seq<Account>, p: Person): seq<Account> {
    match Decide(accounts, p)
    case Already(_) => accounts
    case Linked(a) => if a < |accounts| then accounts[a := LinkTo(accounts[a], p)] else accounts
    case Created(_) => accounts + [NewAccount(p)]
    case Conflict => accounts
  }

  ghost predicate OneEach(accounts: seq<Account>) {
    forall i, j | 0 <= i < j < |accounts| ::
      && (accounts[i].email.Some? ==> accounts[i].email != accounts[j].email)
      && (accounts[i].phone.Some? ==> accounts[i].phone != accounts[j].phone)
      && (accounts[i].suliko.Some? ==> accounts[i].suliko != accounts[j].suliko)
  }

  /** A person with a sign-in is looked up under what would be stored of them. */
  lemma StoredIsMatched(p: Person)
    requires p.login != Phone("")
    ensures Matches(NewAccount(p), p.login)
  {
  }

  /** The one step that would give two accounts one number: a new person whose sign-in is empty,
      where an account with an empty number is there. */
  predicate Collides(accounts: seq<Account>, p: Person) {
    Decide(accounts, p).Created? && p.login == Phone("") && exists i :: 0 <= i < |accounts| && accounts[i].phone == Some("")
  }

  /** Whoever comes, no address, number or suliko.ge person has two accounts, unless that is it:
      nothing else can meet the database's unique constraints. */
  lemma UpsertKeepsOneEach(accounts: seq<Account>, p: Person)
    requires OneEach(accounts)
    ensures OneEach(Upserted(accounts, p)) <==> !Collides(accounts, p)
  {
    var after := Upserted(accounts, p);
    if Decide(accounts, p).Created? {
      assert after[|accounts|] == NewAccount(p);
      if p.login != Phone("") {
        StoredIsMatched(p);
        forall i | 0 <= i < |accounts|
          ensures accounts[i].email.Some? ==> accounts[i].email != NewAccount(p).email
          ensures accounts[i].phone.Some? ==> accounts[i].phone != NewAccount(p).phone
        {
          assert !Matches(accounts[i], p.login);
        }
      } else if i :| 0 <= i < |accounts| && accounts[i].phone == Some("") {
        assert after[i].phone == after[|accounts|].phone;
      }
    }
  }

  /** How many accounts have an empty number. */
  function EmptyNumbers(accounts: seq<Account>): nat {
    if accounts == [] then 0
    else EmptyNumbers(accounts[..|accounts| - 1]) + if accounts[|accounts| - 1].phone == Some("") then 1 else 0
  }

  /** How many of the people are new with an empty sign-in, each as the accounts are by then. */
  function NewEmpties(accounts: seq<Account>, people: seq<Person>): nat {
    if people == [] then 0
    else
      var rest, last := people[..|people| - 1], people[|people| - 1];
      NewEmpties(accounts, rest)
      + if last.login == Phone("") && FindById(AccountsAfter(accounts, rest), last.id).None? then 1 else 0
  }

  lemma {:induction false} EmptyNumbersAre(accounts: seq<Account>)
    ensures EmptyNumbers(accounts) > 0 <==> exists i :: 0 <= i < |accounts| && accounts[i].phone == Some("")
    ensures EmptyNumbers(accounts) > 1 ==> !OneEach(accounts)
  {
    if accounts != [] {
      var rest, n := accounts[..|accounts| - 1], |accounts| - 1;
      EmptyNumbersAre(rest);
      if !OneEach(rest) {
        var i, j :| 0 <= i < j < n
                    && !(&& (rest[i].email.Some? ==> rest[i].email != rest[j].email)
                         && (rest[i].phone.Some? ==> rest[i].phone != rest[j].phone)
                         && (rest[i].suliko.Some? ==> rest[i].suliko != rest[j].suliko));
        assert accounts[i] == rest[i] && accounts[j] == rest[j];
      }
      if EmptyNumbers(rest) > 0 {
        var i :| 0 <= i < n && rest[i].phone == Some("");
        assert accounts[i].phone == Some("");
      }
      if i :| 0 <= i < |accounts| && accounts[i].phone == Some("") && i < n {
        assert rest[i].phone == Some("");
      }
    }
  }

  lemma {:induction false} SamePhones(accounts: seq<Account>, after: seq<Account>)
    requires |accounts| == |after| && forall i | 0 <= i < |after| :: accounts[i].phone == after[i].phone
    ensures EmptyNumbers(accounts) == EmptyNumbers(after)
  {
    if accounts != [] { SamePhones(accounts[..|accounts| - 1], after[..|after| - 1]); }
  }

  /** Only a new person without a sign-in adds an empty number, and no link takes one away. */
  lemma UpsertEmpties(accounts: seq<Account>, p: Person)
    ensures EmptyNumbers(Upserted(accounts, p))
            == EmptyNumbers(accounts) + if p.login == Phone("") && FindById(accounts, p.id).None? then 1 else 0
  {
    var after := Upserted(accounts, p);
    if Decide(accounts, p).Created? {
      assert after[..|after| - 1] == accounts;
    } else {
      assert p.login != Phone("") || FindById(accounts, p.id).Some?;
      SamePhones(accounts, after);
    }
  }

  /** Over a whole list of people the constraints hold exactly when at most one account comes by an
      empty number. */
  lemma {:induction false} RunKeepsOneEach(accounts: seq<Account>, people: seq<Person>)
    requires OneEach(accounts)
    ensures EmptyNumbers(AccountsAfter(accounts, people)) == EmptyNumbers(accounts) + NewEmpties(accounts, people)
    ensures OneEach(AccountsAfter(accounts, people)) <==> EmptyNumbers(accounts) + NewEmpties(accounts, people) <= 1
  {
    hide Upserted, OneEach, Decide, FindById, FindByLogin;
    if people == [] {
      EmptyNumbersAre(accounts);
    } else {
      var rest, last := people[..|people| - 1], people[|people| - 1];
      var before := AccountsAfter(accounts, rest);
      RunKeepsOneEach(accounts, rest);
      UpsertEmpties(before, last);
      EmptyNumbersAre(before);
      EmptyNumbersAre(Upserted(before, last));
      if OneEach(before) {
        UpsertKeepsOneEach(before, last);
        EmptyCollides(before, last);
      }
    }
  }

  lemma EmptyCollides(accounts: seq<Account>, p: Person)
    ensures Collides(accounts, p) <==> EmptyNumbers(accounts) > 0 && p.login == Phone("") && FindById(accounts, p.id).None?
  {
    EmptyNumbersAre(accounts);
  }

  /** Two people without a sign-in would be given the same number. */
  lemma EmptySignInsCollide(p: Person, q: Person)
    requires p.id != q.id && p.login == Phone("") == q.login
    ensures !OneEach(AccountsAfter([], [p, q]))
  {
    assert [p, q][..1] == [p] && [p][..0] == [];
    assert AccountsAfter([], [p]) == [NewAccount(p)];
    RunKeepsOneEach([], [p, q]);
  }

  /** A link is never taken from a person, and no account goes. */
  lemma LinksAreKept(accounts: seq<Account>, p: Person)
    ensures |accounts| <= |Upserted(accounts, p)|
    ensures forall i | 0 <= i < |accounts| :: accounts[i].suliko.Some? ==> Upserted(accounts, p)[i] == accounts[i]
    ensures forall i | 0 <= i < |accounts| :: Upserted(accounts, p)[i].email == accounts[i].email
                                              && (accounts[i].phone.Some? && accounts[i].phone.value != "" ==>
                                                    Upserted(accounts, p)[i].phone == accounts[i].phone)
  {
  }

  /** Coming again, a person is given the same account, and nothing changes. */
  lemma UpsertTwice(accounts: seq<Account>, p: Person)
    requires OneEach(accounts)
    ensures Upserted(Upserted(accounts, p), p) == Upserted(accounts, p)
    ensures !Decide(accounts, p).Conflict? ==> Decide(Upserted(accounts, p), p) == Already(Decide(accounts, p).account)
  {
    var after := Upserted(accounts, p);
    var first := Decide(accounts, p);
    if !first.Conflict? {
      var a := first.account;
      assert after[a].suliko == Some(p.id);
      forall i | 0 <= i < |after| && after[i].suliko == Some(p.id) ensures i == a {
        assert !first.Already? ==> FindById(accounts, p.id).None?;
      }
    }
  }

  // ---- The import ----

  datatype Report = Report(seen: nat, already: nat, created: nat, linkedExisting: seq<Login>, conflicts: seq<Login>)

  const EMPTY := Report(0, 0, 0, [], [])

  function Noted(r: Report, p: Person, o: Outcome): Report {
    var s := r.(seen := r.seen + 1);
    match o
    case Already(_) => s.(already := s.already + 1)
    case Created(_) => s.(created := s.created + 1)
    case Linked(_) => s.(linkedExisting := s.linkedExisting + [p.login])
    case Conflict => s.(conflicts := s.conflicts + [p.login])
  }

  function AccountsAfter(accounts: seq<Account>, people: seq<Person>): seq<Account> {
    if people == [] then accounts
    else Upserted(AccountsAfter(accounts, people[..|people| - 1]), people[|people| - 1])
  }

  /** The report of a real run, which changes the accounts it consults. */
  function RealReport(accounts: seq<Account>, people: seq<Person>): Report {
    if people == [] then EMPTY
    else
      var rest, last := people[..|people| - 1], people[|people| - 1];
      Noted(RealReport(accounts, rest), last, Decide(AccountsAfter(accounts, rest), last))
  }

  /** Of a dry run, which consults them as they are. */
  function DryReport(accounts: seq<Account>, people: seq<Person>): Report {
    if people == [] then EMPTY
    else
      var rest, last := people[..|people| - 1], people[|people| - 1];
      Noted(DryReport(accounts, rest), last, Decide(accounts, last))
  }

  class Directory {
    var accounts: seq<Account>

    constructor (accounts: seq<Account>)
      ensures this.accounts == accounts
    {
      this.accounts := accounts;
    }

    /** Whether the account is theirs or a conflict is raised. */
    method UpsertFromSuliko(p: Person) returns (outcome: Outcome)
      modifies this
      ensures outcome == Decide(old(accounts), p) && accounts == Upserted(old(accounts), p)
    {
      var linked := FindById(accounts, p.id);
      if linked.Some? { return Already(linked.value); }
      var office := FindByLogin(accounts, p.login);
      if office.Some? {
        var a := office.value;
        if accounts[a].suliko != None && accounts[a].suliko != Some(p.id) { return Conflict; }
        accounts := accounts[a := LinkTo(accounts[a], p)];
        return Linked(a);
      }
      accounts := accounts + [NewAccount(p)];
      return Created(|accounts| - 1);
    }

    method NoteDry(p: Person, report: Report) returns (noted: Report)
      ensures noted == Noted(report, p, Decide(accounts, p))
    {
      var seen := report.(seen := report.seen + 1);
      if FindById(accounts, p.id) != None { return seen.(already := seen.already + 1); }
      var office := FindByLogin(accounts, p.login);
      if office.None? { return seen.(created := seen.created + 1); }
      if accounts[office.value].suliko.None? { return seen.(linkedExisting := seen.linkedExisting + [p.login]); }
      return seen.(conflicts := seen.conflicts + [p.login]);
    }

    method NoteReal(p: Person, report: Report) returns (noted: Report)
      modifies this
      ensures noted == Noted(report, p, Decide(old(accounts), p)) && accounts == Upserted(old(accounts), p)
    {
      var seen := report.(seen := report.seen + 1);
      if FindById(accounts, p.id) != None { return seen.(already := seen.already + 1); }
      var outcome := UpsertFromSuliko(p);
      if outcome.Conflict? { return seen.(conflicts := seen.conflicts + [p.login]); }
      if outcome.Created? { return seen.(created := seen.created + 1); }
      return seen.(linkedExisting := seen.linkedExisting + [p.login]);
    }

    method ImportUsers(people: seq<Person>, dryRun: bool) returns (report: Report)
      modifies this
      ensures report == if dryRun then DryReport(old(accounts), people) else RealReport(old(accounts), people)
      ensures accounts == if dryRun then old(accounts) else AccountsAfter(old(accounts), people)
    {
      report := EMPTY;
      for i := 0 to |people|
        invariant report == if dryRun then DryReport(old(accounts), people[..i]) else RealReport(old(accounts), people[..i])
        invariant accounts == if dryRun then old(accounts) else AccountsAfter(old(accounts), people[..i])
      {
        hide Noted, Decide, Upserted;
        assert people[..i + 1][..i] == people[..i];
        if dryRun { report := NoteDry(people[i], report); } else { report := NoteReal(people[i], report); }
      }
      assert people[..|people|] == people;
    }
  }

  // ---- Dry runs predict real runs ----

  ghost predicate DistinctPeople(people: seq<Person>) {
    forall i, j | 0 <= i < j < |people| :: people[i].id != people[j].id
  }

  /** Two people after one sign-in: an earlier one would be given what a later one finds, an
      account not linked yet, or the one made for them. */
  ghost predicate Clash(accounts: seq<Account>, p: Person, q: Person) {
    && FindById(accounts, p.id).None? && FindById(accounts, q.id).None?
    && var a, b := FindByLogin(accounts, p.login), FindByLogin(accounts, q.login);
       a == b && (a.Some? ==> accounts[a.value].suliko.None?) && (a.None? ==> Matches(NewAccount(p), q.login))
  }

  ghost predicate NoClash(accounts: seq<Account>, people: seq<Person>) {
    forall i, j | 0 <= i < j < |people| :: !Clash(accounts, people[i], people[j])
  }

  /** Someone earlier who would be given the account in a dry run. */
  ghost predicate GivenTo(accounts: seq<Account>, people: seq<Person>, i: int, a: Account, found: Option<nat>) {
    0 <= i < |people| && a.suliko == Some(people[i].id) && FindById(accounts, people[i].id).None?
    && FindByLogin(accounts, people[i].login) == found
  }

  ghost predicate LinkFollows(accounts: seq<Account>, people: seq<Person>, was: Account, a: Account, k: nat) {
    && a.email == was.email && a.phone == was.phone
    && (a.suliko == was.suliko || (was.suliko.None? && exists i :: GivenTo(accounts, people, i, a, Some(k))))
  }

  ghost predicate NewFollows(accounts: seq<Account>, people: seq<Person>, a: Account) {
    exists i :: GivenTo(accounts, people, i, a, None) && a == NewAccount(people[i])
  }

  /** The accounts of a run so far: those there were, with what they are found by unchanged and
      some linked to people of the run, and after them those made for people of the run. */
  ghost predicate Follows(accounts: seq<Account>, people: seq<Person>, now: seq<Account>) {
    && |accounts| <= |now|
    && (forall k | 0 <= k < |accounts| :: LinkFollows(accounts, people, accounts[k], now[k], k))
    && (forall k | |accounts| <= k < |now| :: NewFollows(accounts, people, now[k]))
  }

  ghost predicate NotAmong(people: seq<Person>, id: string) {
    forall i | 0 <= i < |people| :: people[i].id != id
  }

  lemma IdStays(accounts: seq<Account>, people: seq<Person>, now: seq<Account>, p: Person, k: nat)
    requires Follows(accounts, people, now) && NotAmong(people, p.id) && k < |now|
    ensures now[k].suliko == Some(p.id) <==> k < |accounts| && accounts[k].suliko == Some(p.id)
  {
    hide FindById, FindByLogin;
    if k < |accounts| {
      assert LinkFollows(accounts, people, accounts[k], now[k], k);
      if now[k].suliko != accounts[k].suliko {
        var i :| GivenTo(accounts, people, i, now[k], Some(k));
      }
    } else {
      assert NewFollows(accounts, people, now[k]);
      var i :| GivenTo(accounts, people, i, now[k], None) && now[k] == NewAccount(people[i]);
    }
  }

  lemma SameId(accounts: seq<Account>, people: seq<Person>, now: seq<Account>, p: Person)
    requires Follows(accounts, people, now) && NotAmong(people, p.id)
    ensures FindById(accounts, p.id).None? <==> FindById(now, p.id).None?
  {
    forall k | 0 <= k < |now| ensures now[k].suliko == Some(p.id) <==> k < |accounts| && accounts[k].suliko == Some(p.id) {
      IdStays(accounts, people, now, p, k);
    }
    assert |accounts| <= |now|;
    hide Follows, FindById, NotAmong;
  }

  lemma FieldsFollow(accounts: seq<Account>, people: seq<Person>, now: seq<Account>, login: Login)
    requires Follows(accounts, people, now)
    ensures |accounts| <= |now|
    ensures forall k | 0 <= k < |accounts| :: Matches(now[k], login) <==> Matches(accounts[k], login)
  {
    hide FindByLogin, PhoneVariants;
    forall k | 0 <= k < |accounts| ensures Matches(now[k], login) <==> Matches(accounts[k], login) {
      assert LinkFollows(accounts, people, accounts[k], now[k], k);
    }
  }

  lemma SameLogin(accounts: seq<Account>, people: seq<Person>, now: seq<Account>, login: Login)
    requires Follows(accounts, people, now)
    ensures FindByLogin(accounts, login).Some? ==> FindByLogin(now, login) == FindByLogin(accounts, login)
    ensures FindByLogin(accounts, login).None? && FindByLogin(now, login).Some? ==> FindByLogin(now, login).value >= |accounts|
  {
    hide *;
    FieldsFollow(accounts, people, now, login);
    var before, after := FindByLogin(accounts, login), FindByLogin(now, login);
    if before.Some? {
      assert Matches(now[before.value], login);
      assert after.Some?;
      assert Matches(now[after.value], login);
    } else {
      assert forall k | 0 <= k < |accounts| :: !Matches(now[k], login);
    }
  }

  /** What a lookup finds does not move, but for the accounts made since. */
  lemma SameFinds(accounts: seq<Account>, people: seq<Person>, now: seq<Account>, p: Person)
    requires Follows(accounts, people, now) && NotAmong(people, p.id)
    ensures FindById(accounts, p.id).None? <==> FindById(now, p.id).None?
    ensures FindByLogin(accounts, p.login).Some? ==> FindByLogin(now, p.login) == FindByLogin(accounts, p.login)
    ensures FindByLogin(accounts, p.login).None? && FindByLogin(now, p.login).Some? ==> FindByLogin(now, p.login).value >= |accounts|
  {
    hide *;
    SameId(accounts, people, now, p);
    SameLogin(accounts, people, now, p.login);
  }

  lemma MoreGiven(accounts: seq<Account>, people: seq<Person>, p: Person, i: int, a: Account, found: Option<nat>)
    requires GivenTo(accounts, people, i, a, found)
    ensures GivenTo(accounts, people + [p], i, a, found) && (people + [p])[i] == people[i]
  {
  }

  lemma StepFollows(accounts: seq<Account>, people: seq<Person>, now: seq<Account>, p: Person)
    requires Follows(accounts, people, now) && NotAmong(people, p.id)
    ensures Follows(accounts, people + [p], Upserted(now, p))
  {
    var all, after := people + [p], Upserted(now, p);
    SameFinds(accounts, people, now, p);
    var outcome := Decide(now, p);
    forall k | |accounts| <= k < |now| ensures now[k].suliko.Some? { assert NewFollows(accounts, people, now[k]); }
    forall k | 0 <= k < |accounts| ensures LinkFollows(accounts, all, accounts[k], after[k], k) {
      assert LinkFollows(accounts, people, accounts[k], now[k], k);
      if now[k].suliko != accounts[k].suliko {
        var i :| GivenTo(accounts, people, i, now[k], Some(k));
        MoreGiven(accounts, people, p, i, now[k], Some(k));
      }
      if outcome == Linked(k) { assert GivenTo(accounts, all, |people|, after[k], Some(k)); }
    }
    forall k | |accounts| <= k < |after| ensures NewFollows(accounts, all, after[k]) {
      if k < |now| {
        assert NewFollows(accounts, people, now[k]);
        var i :| GivenTo(accounts, people, i, now[k], None) && now[k] == NewAccount(people[i]);
        MoreGiven(accounts, people, p, i, now[k], None);
      } else {
        assert GivenTo(accounts, all, |people|, after[k], None);
      }
    }
  }

  /** Whoever a dry run would link or give a new account has it. */
  ghost predicate Took(accounts: seq<Account>, p: Person, now: seq<Account>) {
    match Decide(accounts, p)
    case Linked(a) => a < |now| && now[a].suliko.Some?
    case Created(_) => exists k :: |accounts| <= k < |now| && now[k] == NewAccount(p)
    case _ => true
  }

  ghost predicate AllTook(accounts: seq<Account>, people: seq<Person>, now: seq<Account>) {
    forall i | 0 <= i < |people| :: Took(accounts, people[i], now)
  }

  ghost predicate ClashesWithOne(accounts: seq<Account>, people: seq<Person>, p: Person) {
    exists i :: 0 <= i < |people| && Clash(accounts, people[i], p)
  }

  ghost predicate SameKind(a: Outcome, b: Outcome) {
    a.Already? == b.Already? && a.Linked? == b.Linked? && a.Created? == b.Created? && a.Conflict? == b.Conflict?
  }

  /** A conflict or a known person in the dry run is one in the real run. */
  lemma ConflictsStay(accounts: seq<Account>, people: seq<Person>, now: seq<Account>, p: Person)
    requires Follows(accounts, people, now) && NotAmong(people, p.id)
    ensures Decide(accounts, p).Conflict? ==> Decide(now, p).Conflict?
  {
    SameFinds(accounts, people, now, p);
    var office := FindByLogin(accounts, p.login);
    if office.Some? { assert LinkFollows(accounts, people, accounts[office.value], now[office.value], office.value); }
  }

  /** An account found otherwise than in a dry run was given to someone earlier. */
  lemma LinkedMeansClash(accounts: seq<Account>, people: seq<Person>, now: seq<Account>, p: Person)
    requires Follows(accounts, people, now) && FindById(accounts, p.id).None?
    ensures var office := FindByLogin(accounts, p.login);
            && |accounts| <= |now|
            && (office.Some? ==> now[office.value].suliko == accounts[office.value].suliko || ClashesWithOne(accounts, people, p))
  {
    var office := FindByLogin(accounts, p.login);
    if office.Some? {
      var k := office.value;
      assert LinkFollows(accounts, people, accounts[k], now[k], k);
      if now[k].suliko != accounts[k].suliko {
        var i :| GivenTo(accounts, people, i, now[k], Some(k));
        assert Clash(accounts, people[i], p);
      }
    }
  }

  lemma NewMeansClash(accounts: seq<Account>, people: seq<Person>, now: seq<Account>, p: Person)
    requires Follows(accounts, people, now) && FindById(accounts, p.id).None? && FindByLogin(accounts, p.login).None?
    requires FindByLogin(now, p.login).Some? ==> FindByLogin(now, p.login).value >= |accounts|
    ensures FindByLogin(now, p.login).None? || ClashesWithOne(accounts, people, p)
  {
    var found := FindByLogin(now, p.login);
    if found.Some? {
      var k := found.value;
      assert NewFollows(accounts, people, now[k]);
      var i :| GivenTo(accounts, people, i, now[k], None) && now[k] == NewAccount(people[i]);
      assert Clash(accounts, people[i], p);
    }
  }

  /** Without a clash the real run does as the dry run says. */
  lemma NoClashSame(accounts: seq<Account>, people: seq<Person>, now: seq<Account>, p: Person)
    requires Follows(accounts, people, now) && NotAmong(people, p.id) && !ClashesWithOne(accounts, people, p)
    ensures SameKind(Decide(accounts, p), Decide(now, p)) && Took(accounts, p, Upserted(now, p))
  {
    SameFinds(accounts, people, now, p);
    if FindById(accounts, p.id).None? {
      LinkedMeansClash(accounts, people, now, p);
      if FindByLogin(accounts, p.login).None? { NewMeansClash(accounts, people, now, p); }
    }
    hide ClashesWithOne, Matches, Follows, FindById, FindByLogin;
    if Decide(accounts, p).Created? { assert Upserted(now, p)[|now|] == NewAccount(p); }
  }

  /** With one, the real run has a conflict the dry run has not. */
  lemma ClashConflicts(accounts: seq<Account>, people: seq<Person>, now: seq<Account>, p: Person)
    requires Follows(accounts, people, now) && AllTook(accounts, people, now) && NotAmong(people, p.id)
    requires ClashesWithOne(accounts, people, p)
    ensures Decide(now, p).Conflict? && !Decide(accounts, p).Conflict?
  {
    SameFinds(accounts, people, now, p);
    var i :| 0 <= i < |people| && Clash(accounts, people[i], p);
    assert Took(accounts, people[i], now);
    var office := FindByLogin(accounts, p.login);
    if office.None? {
      var k :| |accounts| <= k < |now| && now[k] == NewAccount(people[i]);
      assert Matches(now[k], p.login);
      var found := FindByLogin(now, p.login).value;
      assert NewFollows(accounts, people, now[found]);
    }
  }

  lemma StillTook(accounts: seq<Account>, people: seq<Person>, now: seq<Account>, p: Person)
    requires AllTook(accounts, people, now) && Took(accounts, p, Upserted(now, p))
    requires Follows(accounts, people, now)
    ensures AllTook(accounts, people + [p], Upserted(now, p))
  {
    var all, after := people + [p], Upserted(now, p);
    LinksAreKept(now, p);
    forall i | 0 <= i < |people| ensures Took(accounts, people[i], after) {
      assert Took(accounts, people[i], now);
      if Decide(accounts, people[i]).Created? {
        var k :| |accounts| <= k < |now| && now[k] == NewAccount(people[i]);
        assert after[k] == now[k];
      }
    }
  }

  lemma ClashSplits(accounts: seq<Account>, people: seq<Person>, p: Person)
    ensures NoClash(accounts, people + [p]) <==> NoClash(accounts, people) && !ClashesWithOne(accounts, people, p)
  {
    var all := people + [p];
    if NoClash(accounts, all) {
      forall i, j | 0 <= i < j < |people| ensures !Clash(accounts, people[i], people[j]) {
        assert !Clash(accounts, all[i], all[j]);
      }
      forall i | 0 <= i < |people| ensures !Clash(accounts, people[i], p) {
        assert !Clash(accounts, all[i], all[|people|]);
      }
    }
  }

  lemma {:induction false} RunFollows(accounts: seq<Account>, people: seq<Person>)
    requires DistinctPeople(people)
    ensures Follows(accounts, people, AccountsAfter(accounts, people))
  {
    if people != [] {
      var rest, last := people[..|people| - 1], people[|people| - 1];
      assert people == rest + [last];
      RunFollows(accounts, rest);
      assert NotAmong(rest, last.id);
      StepFollows(accounts, rest, AccountsAfter(accounts, rest), last);
    }
  }

  /** How the last of some people fares in the two runs. */
  lemma LastPerson(accounts: seq<Account>, rest: seq<Person>, now: seq<Account>, last: Person)
    requires Follows(accounts, rest, now) && NotAmong(rest, last.id)
    ensures NoClash(accounts, rest + [last]) <==> NoClash(accounts, rest) && !ClashesWithOne(accounts, rest, last)
    ensures Decide(accounts, last).Conflict? ==> Decide(now, last).Conflict?
    ensures AllTook(accounts, rest, now) && ClashesWithOne(accounts, rest, last) ==>
              Decide(now, last).Conflict? && !Decide(accounts, last).Conflict?
    ensures AllTook(accounts, rest, now) && !ClashesWithOne(accounts, rest, last) ==>
              SameKind(Decide(accounts, last), Decide(now, last)) && AllTook(accounts, rest + [last], Upserted(now, last))
  {
    hide *;
    ClashSplits(accounts, rest, last);
    ConflictsStay(accounts, rest, now, last);
    if AllTook(accounts, rest, now) {
      if ClashesWithOne(accounts, rest, last) {
        ClashConflicts(accounts, rest, now, last);
      } else {
        NoClashSame(accounts, rest, now, last);
        StillTook(accounts, rest, now, last);
      }
    }
  }

  lemma Notes(done: Report, dry: Report, p: Person, a: Outcome, b: Outcome)
    ensures done == dry && SameKind(b, a) ==> Noted(done, p, a) == Noted(dry, p, b)
    ensures |Noted(done, p, a).conflicts| == |done.conflicts| + if a.Conflict? then 1 else 0
    ensures |Noted(dry, p, b).conflicts| == |dry.conflicts| + if b.Conflict? then 1 else 0
  {
  }

  lemma {:induction false} Progress(accounts: seq<Account>, people: seq<Person>)
    requires DistinctPeople(people)
    ensures NoClash(accounts, people) ==>
              RealReport(accounts, people) == DryReport(accounts, people) && AllTook(accounts, people, AccountsAfter(accounts, people))
    ensures !NoClash(accounts, people) ==> |RealReport(accounts, people).conflicts| > |DryReport(accounts, people).conflicts|
  {
    if people != [] {
      var rest, last := people[..|people| - 1], people[|people| - 1];
      var now := AccountsAfter(accounts, rest);
      assert people == rest + [last] && NotAmong(rest, last.id);
      Progress(accounts, rest);
      RunFollows(accounts, rest);
      LastPerson(accounts, rest, now, last);
      Notes(RealReport(accounts, rest), DryReport(accounts, rest), last, Decide(now, last), Decide(accounts, last));
      hide Clash, ClashesWithOne, NoClash, Follows, AllTook, Upserted, Decide, DistinctPeople, NotAmong, Noted, SameKind;
    }
  }

  /** A dry run reports what a real run does, although that changes the accounts it consults,
      exactly when no two people are after one sign-in; otherwise the real run has conflicts
      the dry run did not foresee. */
  lemma DryRunPredicts(accounts: seq<Account>, people: seq<Person>)
    requires DistinctPeople(people)
    ensures RealReport(accounts, people) == DryReport(accounts, people) <==> NoClash(accounts, people)
  {
    Progress(accounts, people);
  }

  // ---- Running again ----

  ghost predicate Settled(accounts: seq<Account>, p: Person) {
    Decide(accounts, p).Already? || Decide(accounts, p).Conflict?
  }

  lemma FieldsKept(accounts: seq<Account>, p: Person)
    ensures |accounts| <= |Upserted(accounts, p)|
    ensures forall i | 0 <= i < |accounts| ::
              && Upserted(accounts, p)[i].email == accounts[i].email && Upserted(accounts, p)[i].phone == accounts[i].phone
              && (accounts[i].suliko.Some? ==> Upserted(accounts, p)[i].suliko == accounts[i].suliko)
  {
  }

  lemma SettledOnce(accounts: seq<Account>, p: Person)
    ensures Settled(Upserted(accounts, p), p)
  {
    var first, after := Decide(accounts, p), Upserted(accounts, p);
    if !first.Conflict? { assert after[first.account].suliko == Some(p.id); }
  }

  lemma SettledStays(accounts: seq<Account>, p: Person, q: Person)
    requires Settled(accounts, p)
    ensures Settled(Upserted(accounts, q), p)
  {
    var after := Upserted(accounts, q);
    FieldsKept(accounts, q);
    hide Upserted;
    if Decide(accounts, p).Already? {
      assert after[Decide(accounts, p).account].suliko == Some(p.id);
    } else {
      var k := FindByLogin(accounts, p.login).value;
      assert forall i | 0 <= i < |accounts| :: Matches(after[i], p.login) <==> Matches(accounts[i], p.login);
      assert FindByLogin(after, p.login) == Some(k);
    }
  }

  lemma {:induction false} AllSettled(accounts: seq<Account>, people: seq<Person>)
    ensures forall i | 0 <= i < |people| :: Settled(AccountsAfter(accounts, people), people[i])
  {
    if people != [] {
      var rest, last := people[..|people| - 1], people[|people| - 1];
      var now := AccountsAfter(accounts, rest);
      AllSettled(accounts, rest);
      SettledOnce(now, last);
      forall i | 0 <= i < |rest| ensures Settled(AccountsAfter(accounts, people), people[i]) {
        assert rest[i] == people[i];
        SettledStays(now, rest[i], last);
      }
    }
  }

  lemma {:induction false} SettledChangeNothing(accounts: seq<Account>, people: seq<Person>)
    requires forall i | 0 <= i < |people| :: Settled(accounts, people[i])
    ensures AccountsAfter(accounts, people) == accounts
    ensures RealReport(accounts, people).created == 0 && RealReport(accounts, people).linkedExisting == []
  {
    if people != [] {
      SettledChangeNothing(accounts, people[..|people| - 1]);
      assert Settled(accounts, people[|people| - 1]);
    }
  }

  /** Run again on the same people, the import changes no account, makes none and links nobody. */
  lemma SecondRunChangesNothing(accounts: seq<Account>, people: seq<Person>)
    ensures var after := AccountsAfter(accounts, people);
            && AccountsAfter(after, people) == after
            && RealReport(after, people).created == 0 && RealReport(after, people).linkedExisting == []
  {
    AllSettled(accounts, people);
    SettledChangeNothing(AccountsAfter(accounts, people), people);
  }
}
