/** Who an imported row is: `Seen` of src/suliko/domain/imports.py, the index of people
    already known, and `RefCounter`, which names the ones an import creates.

    `Seen` keeps four dictionaries in which the first person with a key stays. `ScanMatch`
    is what they stand for: looking through the people one after the other, first by phone,
    else by email, else by ID number, else by name when asked. Case folding is a parameter. */
module Matching {
  import opened Options

  /** A record of the bureau's, or the `n`th this import creates ("new:0", "new:1", ...). */
  datatype Ref = Stored(id: int) | New(n: nat)

  /** Someone known: what the record is called, how a row can name it, and its ref. */
  datatype Person = Person(
    title: string, phone: Option<string>, email: Option<string>, personalNumber: Option<string>, name: Option<string>,
    ref: Ref)

  datatype Entry = Entry(title: string, ref: Ref)

  // ---- Keys ----

  predicate IsDigit(c: char) { '0' <= c <= '9' }

  function Digits(s: string): string {
    if s == "" then "" else Digits(s[..|s| - 1]) + if IsDigit(s[|s| - 1]) then [s[|s| - 1]] else ""
  }

  /** The text, up to its 50th character, if it has six digits or more. */
  function CleanPhone(text: string): Option<string> {
    if |Digits(text)| >= 6 then Some(if |text| > 50 then text[..50] else text) else None
  }

  /** The last nine digits, so that a country code does not matter. */
  function PhoneKey(phone: Option<string>): Option<string> {
    if phone.None? then None
    else
      var digits := Digits(phone.value);
      if |digits| < 6 then None else Some(if |digits| > 9 then digits[|digits| - 9..] else digits)
  }

  function FoldedKey(text: Option<string>, fold: string -> string): Option<string> {
    if text.None? || text.value == "" then None else Some(fold(text.value))
  }

  datatype Field = ByPhone | ByEmail | ByNumber | ByName

  function KeyOf(p: Person, field: Field, fold: string -> string): Option<string> {
    match field
    case ByPhone => PhoneKey(p.phone)
    case ByEmail => FoldedKey(p.email, fold)
    case ByNumber => FoldedKey(p.personalNumber, fold)
    case ByName => FoldedKey(p.name, fold)
  }

  // ---- The index ----

  datatype Index = Index(
    byPhone: map<string, Entry>, byEmail: map<string, Entry>, byNumber: map<string, Entry>, byName: map<string, Entry>)

  const EMPTY_INDEX := Index(map[], map[], map[], map[])

  /** `dict.setdefault` for a key there may not be. */
  function SetDefault<V>(m: map<string, V>, key: Option<string>, v: V): map<string, V> {
    if key.None? || key.value in m then m else m[key.value := v]
  }

  function Remember(index: Index, p: Person, fold: string -> string): Index {
    var entry := Entry(p.title, p.ref);
    Index(SetDefault(index.byPhone, KeyOf(p, ByPhone, fold), entry), SetDefault(index.byEmail, KeyOf(p, ByEmail, fold), entry),
          SetDefault(index.byNumber, KeyOf(p, ByNumber, fold), entry), SetDefault(index.byName, KeyOf(p, ByName, fold), entry))
  }

  function IndexOf(people: seq<Person>, fold: string -> string): Index {
    if people == [] then EMPTY_INDEX
    else Remember(IndexOf(people[..|people| - 1], fold), people[|people| - 1], fold)
  }

  /** What matched, and whom. */
  datatype Hit = Hit(field: Field, entry: Entry)

  function Lookup(m: map<string, Entry>, key: Option<string>): Option<Entry> {
    if key.Some? && key.value in m then Some(m[key.value]) else None
  }

  /** `match_ref`; `p`'s own label and ref do not matter. */
  function Match(index: Index, p: Person, byName: bool, fold: string -> string): Option<Hit> {
    var phone := Lookup(index.byPhone, KeyOf(p, ByPhone, fold));
    var email := Lookup(index.byEmail, KeyOf(p, ByEmail, fold));
    var number := Lookup(index.byNumber, KeyOf(p, ByNumber, fold));
    var name := Lookup(index.byName, KeyOf(p, ByName, fold));
    if phone.Some? then Some(Hit(ByPhone, phone.value))
    else if email.Some? then Some(Hit(ByEmail, email.value))
    else if number.Some? then Some(Hit(ByNumber, number.value))
    else if byName && name.Some? then Some(Hit(ByName, name.value))
    else None
  }

  // ---- Looking through the people ----

  /** The first of the people with the same key in a field. */
  function Scan(people: seq<Person>, field: Field, key: Option<string>, fold: string -> string): Option<Entry> {
    if people == [] || key.None? then None
    else if KeyOf(people[0], field, fold) == key then Some(Entry(people[0].title, people[0].ref))
    else Scan(people[1..], field, key, fold)
  }

  function ScanMatch(people: seq<Person>, p: Person, byName: bool, fold: string -> string): Option<Hit> {
    var phone := Scan(people, ByPhone, KeyOf(p, ByPhone, fold), fold);
    var email := Scan(people, ByEmail, KeyOf(p, ByEmail, fold), fold);
    var number := Scan(people, ByNumber, KeyOf(p, ByNumber, fold), fold);
    var name := Scan(people, ByName, KeyOf(p, ByName, fold), fold);
    if phone.Some? then Some(Hit(ByPhone, phone.value))
    else if email.Some? then Some(Hit(ByEmail, email.value))
    else if number.Some? then Some(Hit(ByNumber, number.value))
    else if byName && name.Some? then Some(Hit(ByName, name.value))
    else None
  }

  function MapOf(index: Index, field: Field): map<string, Entry> {
    match field
    case ByPhone => index.byPhone
    case ByEmail => index.byEmail
    case ByNumber => index.byNumber
    case ByName => index.byName
  }

  lemma {:induction false} ScanConcat(a: seq<Person>, b: seq<Person>, field: Field, key: Option<string>, fold: string -> string)
    ensures Scan(a + b, field, key, fold) ==
            if Scan(a, field, key, fold).Some? then Scan(a, field, key, fold) else Scan(b, field, key, fold)
  {
    if a == [] {
      assert a + b == b;
    } else {
      assert (a + b)[1..] == a[1..] + b;
      ScanConcat(a[1..], b, field, key, fold);
    }
  }

  lemma RememberOne(index: Index, p: Person, field: Field, key: Option<string>, fold: string -> string)
    ensures Lookup(MapOf(Remember(index, p, fold), field), key) ==
            if Lookup(MapOf(index, field), key).Some? then Lookup(MapOf(index, field), key)
            else if key.Some? && KeyOf(p, field, fold) == key then Some(Entry(p.title, p.ref))
            else None
  {
    hide KeyOf;
  }

  lemma {:induction false} LookupIsScan(people: seq<Person>, field: Field, key: Option<string>, fold: string -> string)
    ensures Lookup(MapOf(IndexOf(people, fold), field), key) == Scan(people, field, key, fold)
  {
    hide KeyOf;
    if people != [] {
      var n := |people| - 1;
      LookupIsScan(people[..n], field, key, fold);
      RememberOne(IndexOf(people[..n], fold), people[n], field, key, fold);
      hide Remember, MapOf, Lookup;
      ScanConcat(people[..n], [people[n]], field, key, fold);
      assert people == people[..n] + [people[n]];
      assert [people[n]][1..] == [];
    }
  }

  /** Whatever people were added, in whatever order, the index answers as the scan does. */
  lemma IndexIsScan(people: seq<Person>, p: Person, byName: bool, fold: string -> string)
    ensures Match(IndexOf(people, fold), p, byName, fold) == ScanMatch(people, p, byName, fold)
  {
    hide Scan, IndexOf;
    forall field: Field, key ensures Lookup(MapOf(IndexOf(people, fold), field), key) == Scan(people, field, key, fold) {
      LookupIsScan(people, field, key, fold);
    }
    assert MapOf(IndexOf(people, fold), ByPhone) == IndexOf(people, fold).byPhone;
    assert MapOf(IndexOf(people, fold), ByEmail) == IndexOf(people, fold).byEmail;
    assert MapOf(IndexOf(people, fold), ByNumber) == IndexOf(people, fold).byNumber;
    assert MapOf(IndexOf(people, fold), ByName) == IndexOf(people, fold).byName;
  }

  predicate Before(a: Field, b: Field) {
    match a
    case ByPhone => !b.ByPhone?
    case ByEmail => b.ByNumber? || b.ByName?
    case ByNumber => b.ByName?
    case ByName => false
  }

  /** Adding people never changes a match by phone; and it changes another match only by one
      on a field that is asked first. */
  lemma MatchesAreStable(people: seq<Person>, more: seq<Person>, p: Person, byName: bool, fold: string -> string)
    requires Match(IndexOf(people, fold), p, byName, fold).Some?
    ensures var old', new' := Match(IndexOf(people, fold), p, byName, fold), Match(IndexOf(people + more, fold), p, byName, fold);
            && new'.Some?
            && (old'.value.field.ByPhone? ==> new' == old')
            && (new' == old' || Before(new'.value.field, old'.value.field))
  {
    IndexIsScan(people, p, byName, fold);
    IndexIsScan(people + more, p, byName, fold);
    hide Scan, IndexOf, Match;
    ScanConcat(people, more, ByPhone, KeyOf(p, ByPhone, fold), fold);
    ScanConcat(people, more, ByEmail, KeyOf(p, ByEmail, fold), fold);
    ScanConcat(people, more, ByNumber, KeyOf(p, ByNumber, fold), fold);
    ScanConcat(people, more, ByName, KeyOf(p, ByName, fold), fold);
  }

  // ---- The objects ----

  class Seen {
    const fold: string -> string
    var byPhone: map<string, Entry>
    var byEmail: map<string, Entry>
    var byNumber: map<string, Entry>
    var byName: map<string, Entry>

    function Contents(): Index
      reads this
    {
      Index(byPhone, byEmail, byNumber, byName)
    }

    /** The bureau's records, in their order. */
    constructor (existing: seq<Person>, fold: string -> string)
      ensures Contents() == IndexOf(existing, fold) && this.fold == fold
    {
      this.fold := fold;
      byPhone, byEmail, byNumber, byName := map[], map[], map[], map[];
      new;
      for i := 0 to |existing|
        invariant Contents() == IndexOf(existing[..i], fold)
      {
        assert existing[..i + 1][..i] == existing[..i];
        Add(existing[i]);
      }
      assert existing[..|existing|] == existing;
    }

    method Add(person: Person)
      modifies this
      ensures Contents() == Remember(old(Contents()), person, fold)
    {
      var entry := Entry(person.title, person.ref);
      byPhone := SetDefault(byPhone, PhoneKey(person.phone), entry);
      byEmail := SetDefault(byEmail, FoldedKey(person.email, fold), entry);
      byNumber := SetDefault(byNumber, FoldedKey(person.personalNumber, fold), entry);
      byName := SetDefault(byName, FoldedKey(person.name, fold), entry);
    }

    method MatchRef(person: Person, asName: bool) returns (hit: Option<Hit>)
      ensures hit == Match(Contents(), person, asName, fold)
    {
      var key := PhoneKey(person.phone);
      if key.Some? && key.value in byPhone { return Some(Hit(ByPhone, byPhone[key.value])); }
      if person.email.Some? && person.email.value != "" && fold(person.email.value) in byEmail {
        return Some(Hit(ByEmail, byEmail[fold(person.email.value)]));
      }
      if person.personalNumber.Some? && person.personalNumber.value != "" && fold(person.personalNumber.value) in byNumber {
        return Some(Hit(ByNumber, byNumber[fold(person.personalNumber.value)]));
      }
      if asName && person.name.Some? && person.name.value != "" && fold(person.name.value) in byName {
        return Some(Hit(ByName, byName[fold(person.name.value)]));
      }
      return None;
    }
  }

  class RefCounter {
    var count: nat

    constructor ()
      ensures count == 0
    {
      count := 0;
    }

    method Next() returns (ref: Ref)
      modifies this
      ensures ref == New(old(count)) && count == old(count) + 1
    {
      ref := Peek();
      count := count + 1;
    }

    function Peek(): (ref: Ref)
      reads this
    {
      New(count)
    }
  }
}
