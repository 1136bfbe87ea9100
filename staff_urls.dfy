/** staff/urls.py, the function view `create_staff`: the request fields
    turned into an account, a department and a staff row (name split,
    username and e-mail, lower-cased role and status, the qualification
    split, `generate_password`), and the three writes in sequence with no
    transaction around them. */
module StaffUrls {
  import opened Base
  import opened StaffModels
  import StaffSerializers
  import StaffViews

  // --- str.split() and ' '.join -----------------------------------------

  /** The characters Python's `str.split()` treats as whitespace. */
  predicate IsSpace(c: char)
  {
    var n := c as int;
    || n == 32 || 9 <= n <= 13 || 28 <= n <= 31 || n == 0x85 || n == 0xA0 || n == 0x1680
    || 0x2000 <= n <= 0x200A || n == 0x2028 || n == 0x2029 || n == 0x202F || n == 0x205F || n == 0x3000
  }

  /** A token of `str.split()`: non-empty and free of whitespace. */
  predicate IsWord(w: string)
  {
    w != [] && forall i :: 0 <= i < |w| ==> !IsSpace(w[i])
  }

  /** The longest prefix without whitespace. */
  function LeadingWord(s: string): (w: string)
    ensures |w| <= |s| && w == s[..|w|]
    ensures forall i :: 0 <= i < |w| ==> !IsSpace(w[i])
    ensures |w| < |s| ==> IsSpace(s[|w|])
  {
    if s == [] || IsSpace(s[0]) then [] else [s[0]] + LeadingWord(s[1..])
  }

  /** `s.split()`: the maximal runs of non-whitespace, in order. */
  function Tokens(s: string): seq<string>
    decreases |s|
  {
    if s == [] then []
    else if IsSpace(s[0]) then Tokens(s[1..])
    else
      var w := LeadingWord(s);
      [w] + Tokens(s[|w|..])
  }

  /** `sep.join(parts)`. */
  function Join(parts: seq<string>, sep: string): string
  {
    if parts == [] then ""
    else if |parts| == 1 then parts[0]
    else parts[0] + sep + Join(parts[1..], sep)
  }

  /** Every token of `str.split()` is a word. */
  lemma {:induction false} TokensAreWords(s: string)
    ensures forall i :: 0 <= i < |Tokens(s)| ==> IsWord(Tokens(s)[i])
    decreases |s|
  {
    if s == [] {
    } else if IsSpace(s[0]) {
      TokensAreWords(s[1..]);
    } else {
      var w := LeadingWord(s);
      TokensAreWords(s[|w|..]);
    }
  }

  /** A word followed by whitespace or by nothing is the leading word. */
  lemma LeadingWordOf(w: string, rest: string)
    requires forall i :: 0 <= i < |w| ==> !IsSpace(w[i])
    requires rest == [] || IsSpace(rest[0])
    ensures LeadingWord(w + rest) == w
  {
    var s := w + rest;
    assert forall i :: 0 <= i < |w| ==> s[i] == w[i];
    assert |w| < |s| ==> s[|w|] == rest[0];
  }

  /** Splitting words joined by single spaces gives the words back. */
  lemma {:induction false} TokensOfJoin(ts: seq<string>)
    requires forall i :: 0 <= i < |ts| ==> IsWord(ts[i])
    ensures Tokens(Join(ts, " ")) == ts
  {
    if ts == [] {
    } else if |ts| == 1 {
      LeadingWordOf(ts[0], "");
      assert ts[0] + "" == ts[0];
      assert ts[0][|ts[0]|..] == [];
    } else {
      var rest := Join(ts[1..], " ");
      var s := ts[0] + " " + rest;
      assert s == ts[0] + (" " + rest);
      LeadingWordOf(ts[0], " " + rest);
      assert s[|ts[0]|..] == " " + rest;
      assert (" " + rest)[1..] == rest;
      TokensOfJoin(ts[1..]);
      assert Tokens(s) == [ts[0]] + ts[1..];
    }
  }

  // --- name, username and e-mail -----------------------------------------

  /** `name_parts[0] if name_parts else ''`. */
  function FirstName(name: string): string
  {
    var parts := Tokens(name);
    if parts == [] then "" else parts[0]
  }

  /** `' '.join(name_parts[1:]) if len(name_parts) > 1 else ''`. */
  function LastName(name: string): string
  {
    var parts := Tokens(name);
    if |parts| > 1 then Join(parts[1..], " ") else ""
  }

  /** The first name is the first token (or '' without one), the last
      name re-splits into the remaining tokens, and the full name the
      staff serializer shows is the tokens joined by single spaces when
      there are at least two; with one token it ends in a space. */
  lemma NameSplit(name: string, username: string, email: string, password: string)
    ensures var parts := Tokens(name);
      && (parts == [] ==> FirstName(name) == "" && LastName(name) == "")
      && (parts != [] ==> FirstName(name) == parts[0] && IsWord(FirstName(name)))
      && (|parts| <= 1 ==> LastName(name) == "")
      && (|parts| > 1 ==> Tokens(LastName(name)) == parts[1..])
      && (|parts| > 1 ==>
            StaffSerializers.FullName(Account(username, email, password, FirstName(name), LastName(name))) == Join(parts, " "))
      && (|parts| == 1 ==>
            StaffSerializers.FullName(Account(username, email, password, FirstName(name), LastName(name))) == parts[0] + " ")
  {
    var parts := Tokens(name);
    TokensAreWords(name);
    if |parts| > 1 {
      TokensOfJoin(parts[1..]);
    }
  }

  /** A name that is already words joined by single spaces splits back
      into its first word and the rest, and reads back unchanged as the
      full name when it has two words or more. */
  lemma NameRoundTrip(ts: seq<string>, username: string, email: string, password: string)
    requires |ts| >= 2 && forall i :: 0 <= i < |ts| ==> IsWord(ts[i])
    ensures FirstName(Join(ts, " ")) == ts[0]
    ensures LastName(Join(ts, " ")) == Join(ts[1..], " ")
    ensures StaffSerializers.FullName(Account(username, email, password, FirstName(Join(ts, " ")), LastName(Join(ts, " ")))) == Join(ts, " ")
  {
    TokensOfJoin(ts);
    NameSplit(Join(ts, " "), username, email, password);
  }

  const USERNAME_PREFIX: string := "staff_"

  /** `f"staff_{staff_id.lower()}"`. */
  function Username(staffId: string): (u: string)
    ensures StartsWith(u, USERNAME_PREFIX) && |u| == |USERNAME_PREFIX| + |staffId|
  {
    StartsWithConcat(USERNAME_PREFIX, Lower(staffId));
    USERNAME_PREFIX + Lower(staffId)
  }

  /** Usernames are lower-case, and two staff ids give the same username
      exactly when they agree ignoring case. */
  lemma UsernameCaseless(a: string, b: string)
    ensures Lower(Username(a)) == Username(a)
    ensures Username(a) == Username(b) <==> Lower(a) == Lower(b)
  {
    LowerIdempotent(a);
    var p := USERNAME_PREFIX;
    assert Lower(p) == p;
    assert Username(a)[|p|..] == Lower(a);
    assert Username(b)[|p|..] == Lower(b);
    LowerConcat(p, Lower(a));
  }

  /** Lower-casing works character by character, so it distributes over
      concatenation. */
  lemma LowerConcat(s: string, t: string)
    ensures Lower(s + t) == Lower(s) + Lower(t)
  {
    var l := Lower(s + t);
    forall i | 0 <= i < |s + t| ensures l[i] == (Lower(s) + Lower(t))[i] {
      if i < |s| {
        assert (s + t)[i] == s[i];
      } else {
        assert (s + t)[i] == t[i - |s|];
      }
    }
  }

  const EMAIL_DOMAIN: string := "@example.com"

  /** `request.data.get('email', f"{username}@example.com")`. */
  function EmailOf(email: Option<string>, username: string): (e: string)
    ensures email.None? ==> StartsWith(e, username) && e[|username|..] == EMAIL_DOMAIN
    ensures email.Some? ==> e == email.value
  {
    if email.Some? then email.value
    else
      StartsWithConcat(username, EMAIL_DOMAIN);
      username + EMAIL_DOMAIN
  }

  // --- role, status, qualifications and emergency contact ----------------

  const DEFAULT_ROLE: string := "pharmacist"

  /** `request.data.get('role', 'pharmacist').lower()` and the same for
      `status` with 'active': lower-cased, but not checked against the
      choices. */
  function Lowered(o: Option<string>, default: string): (s: string)
    ensures |s| == |OrElse(o, default)|
    ensures forall i :: 0 <= i < |s| ==> !IsUpperAscii(s[i])
  {
    Lower(OrElse(o, default))
  }

  /** The defaults are choices, every choice is taken in any ASCII case,
      and a value outside the choices is stored anyway. */
  lemma LoweredChoices(o: Option<string>)
    ensures Lowered(None, DEFAULT_ROLE) in ROLE_CHOICES && Lowered(None, ACTIVE) in STATUS_CHOICES
    ensures o.Some? && Lower(o.value) in ROLE_CHOICES ==> Lowered(o, DEFAULT_ROLE) in ROLE_CHOICES
    ensures Lowered(Some("Doctor"), DEFAULT_ROLE) == "doctor" && Lowered(Some("ON_LEAVE"), ACTIVE) == ON_LEAVE
    ensures Lowered(Some("Chef"), DEFAULT_ROLE) == "chef" && "chef" !in ROLE_CHOICES
  {
    assert Lower(DEFAULT_ROLE) == DEFAULT_ROLE;
    assert Lower(ACTIVE) == ACTIVE;
    assert Lower("Doctor") == "doctor";
    assert Lower("ON_LEAVE") == ON_LEAVE;
    assert Lower("Chef") == "chef";
  }

  /** `s.split(sep)` for a one-character separator. */
  function SplitOn(s: string, sep: char): (parts: seq<string>)
    ensures |parts| >= 1
    ensures forall i :: 0 <= i < |parts| ==> sep !in parts[i]
    decreases |s|
  {
    if s == [] then [""]
    else if s[0] == sep then [""] + SplitOn(s[1..], sep)
    else
      var rest := SplitOn(s[1..], sep);
      [[s[0]] + rest[0]] + rest[1..]
  }

  /** Joining the pieces with the separator gives the string back. */
  lemma {:induction false} JoinSplitOn(s: string, sep: char)
    ensures Join(SplitOn(s, sep), [sep]) == s
    decreases |s|
  {
    if s == [] {
    } else if s[0] == sep {
      JoinSplitOn(s[1..], sep);
      var rest := SplitOn(s[1..], sep);
      assert ([""] + rest)[1..] == rest;
    } else {
      JoinSplitOn(s[1..], sep);
      var rest := SplitOn(s[1..], sep);
      var parts := [[s[0]] + rest[0]] + rest[1..];
      if |rest| == 1 {
        assert parts == [[s[0]] + rest[0]];
      } else {
        assert parts[1..] == rest[1..];
        assert Join(rest, [sep]) == rest[0] + [sep] + Join(rest[1..], [sep]);
      }
    }
  }

  /** Splitting pieces without the separator, joined by it, gives the
      pieces back. */
  lemma {:induction false} SplitOnJoin(parts: seq<string>, sep: char)
    requires |parts| >= 1 && forall i :: 0 <= i < |parts| ==> sep !in parts[i]
    ensures SplitOn(Join(parts, [sep]), sep) == parts
  {
    if |parts| == 1 {
      SplitOnPrefix(parts[0], "", sep);
      assert parts[0] + "" == parts[0];
    } else {
      var rest := Join(parts[1..], [sep]);
      SplitOnJoin(parts[1..], sep);
      assert ([sep] + rest)[1..] == rest;
      assert SplitOn([sep] + rest, sep) == [""] + parts[1..];
      SplitOnPrefix(parts[0], [sep] + rest, sep);
      assert parts[0] + [sep] + rest == parts[0] + ([sep] + rest);
      assert parts[0] + "" == parts[0];
    }
  }

  /** A separator-free prefix is glued to the first piece of the rest. */
  lemma {:induction false} SplitOnPrefix(w: string, s: string, sep: char)
    requires sep !in w
    ensures SplitOn(w + s, sep) == [w + SplitOn(s, sep)[0]] + SplitOn(s, sep)[1..]
    decreases |w|
  {
    if w != [] {
      assert (w + s)[0] == w[0];
      assert (w + s)[1..] == w[1..] + s;
      SplitOnPrefix(w[1..], s, sep);
      var x := SplitOn(s, sep);
      var rest := SplitOn(w[1..] + s, sep);
      assert w[0] != sep;
      assert rest[0] == w[1..] + x[0] && rest[1..] == x[1..];
      assert SplitOn(w + s, sep) == [[w[0]] + rest[0]] + rest[1..];
      assert [w[0]] + (w[1..] + x[0]) == w + x[0];
      assert [[w[0]] + rest[0]] + rest[1..] == [w + x[0]] + x[1..];
    } else {
      var x := SplitOn(s, sep);
      assert w + s == s && w + x[0] == x[0];
      assert x == [x[0]] + x[1..];
    }
  }

  /** The `qualifications` value: a string or an already split list. */
  datatype QualificationsInput = QualificationsText(text: string) | QualificationsList(list: seq<string>)

  /** `qualifications.split(',')` for a string, the value itself
      otherwise, and `''.split(',')` when absent. */
  function Qualifications(q: Option<QualificationsInput>): (r: seq<string>)
    ensures q.None? ==> r == [""]
    ensures q.Some? && q.value.QualificationsText? ==> Join(r, ",") == q.value.text && forall i :: 0 <= i < |r| ==> ',' !in r[i]
    ensures q.Some? && q.value.QualificationsList? ==> r == q.value.list
  {
    match q
    case None => SplitOn("", ',')
    case Some(QualificationsText(text)) => JoinSplitOn(text, ','); SplitOn(text, ',')
    case Some(QualificationsList(list)) => list
  }

  /** The `emergency_contact` value, falling back to `emergencyContact`
      when it is absent or empty: a non-empty first value is kept, and an
      empty result means neither carried anything. */
  function EmergencyContact(primary: Option<Contact>, alternative: Option<Contact>): (c: Contact)
    ensures primary.Some? && primary.value != map[] ==> c == primary.value
    ensures c == map[] || c == OrElse(primary, map[]) || c == OrElse(alternative, map[])
    ensures c == map[] <==> OrElse(primary, map[]) == map[] && OrElse(alternative, map[]) == map[]
  {
    var contact := OrElse(primary, map[]);
    if contact == map[] && alternative.Some? && alternative.value != map[] then alternative.value else contact
  }

  // --- generate_password ---------------------------------------------------

  const ASCII_LETTERS: string := "abcdefghijklmnopqrstuvwxyzABCDEFGHIJKLMNOPQRSTUVWXYZ"
  const DIGITS: string := "0123456789"
  const PUNCTUATION: string := "!\"#$%&'()*+,-./:;<=>?@[\\]^_`{|}~"
  const PASSWORD_ALPHABET: string := ASCII_LETTERS + DIGITS + PUNCTUATION
  const PASSWORD_LENGTH: nat := 12


  /** `''.join(random.choice(characters) for _ in range(length))`, with
      the random choices as a parameter: `picks(i)` selects the `i`-th
      character of `characters`. */
  function Choices(characters: string, length: nat, picks: nat -> nat): (r: string)
    requires characters != []
    ensures |r| == length
    ensures forall i :: 0 <= i < |r| ==> r[i] in characters
  {
    seq(length, (i: int) requires 0 <= i => characters[picks(i) % |characters|])
  }

  /** `generate_password()`: twelve characters, each a letter, a digit or
      a punctuation character. */
  function GeneratePassword(picks: nat -> nat): (pw: string)
    ensures |pw| == PASSWORD_LENGTH
    ensures forall i :: 0 <= i < |pw| ==> pw[i] in ASCII_LETTERS || pw[i] in DIGITS || pw[i] in PUNCTUATION
  {
    var pw := Choices(PASSWORD_ALPHABET, PASSWORD_LENGTH, picks);
    assert forall i :: 0 <= i < |pw| ==> pw[i] in PASSWORD_ALPHABET;
    pw
  }

  /** The position of `c` in `s`, or `|s|` when it does not occur. */
  function IndexOf(s: string, c: char): (i: nat)
    ensures i <= |s|
    ensures i < |s| <==> c in s
    ensures i < |s| ==> s[i] == c
  {
    if s == [] then 0 else if s[0] == c then 0 else 1 + IndexOf(s[1..], c)
  }

  /** Every string over `characters` is a possible outcome, so the
      choices range over all of `characters`. */
  lemma EveryChoicePossible(characters: string, p: string)
    requires characters != []
    requires forall i :: 0 <= i < |p| ==> p[i] in characters
    ensures exists picks: nat -> nat :: Choices(characters, |p|, picks) == p
  {
    var picks := (i: nat) => if i < |p| then IndexOf(characters, p[i]) else 0;
    var r := Choices(characters, |p|, picks);
    forall i | 0 <= i < |p| ensures r[i] == p[i] {
      assert picks(i) < |characters|;
    }
    assert r == p;
  }


  // --- Department.objects.get_or_create -----------------------------------

  const DEFAULT_DEPARTMENT: string := "Pharmacy"

  function Named(departments: map<DepartmentId, Department>, name: string): set<DepartmentId>
  {
    set d | d in departments && departments[d].name == name
  }

  lemma SingletonUnique(s: set<DepartmentId>)
    requires |s| == 1
    ensures forall a, b :: a in s && b in s ==> a == b
  {
    forall a, b | a in s && b in s ensures a == b {
      assert |s - {a}| == 0;
      assert b in s - {a} || b == a;
    }
  }

  /** The tables after `get_or_create` and the department it returns, or
      `None` when `get` meets several rows of that name (`name` is not
      unique) and raises. */
  datatype DepartmentFetch = DepartmentFetch(tables: StaffTables, department: Option<DepartmentId>)

  /** `Department.objects.get_or_create(name=name)`: the one row of that
      name, a new row under the next id when there is none, and an error
      that writes nothing when there are several. */
  function GetOrCreateDepartment(t: StaffTables, name: string): (r: DepartmentFetch)
    ensures r.department.None? <==> |Named(t.departments, name)| > 1
    ensures r.department.Some? ==> r.department.value in r.tables.departments && r.tables.departments[r.department.value].name == name
    ensures Named(t.departments, name) != {} ==> r.tables == t
    ensures |Named(t.departments, name)| == 1 ==> Named(t.departments, name) == {r.department.value}
    ensures Named(t.departments, name) == {} ==>
      && r.department == Some(t.nextDepartmentId)
      && r.tables == t.(departments := t.departments[t.nextDepartmentId := Department(name, "")], nextDepartmentId := t.nextDepartmentId + 1)
  {
    var named := Named(t.departments, name);
    if named == {} then
      var d := t.nextDepartmentId;
      DepartmentFetch(t.(departments := t.departments[d := Department(name, "")], nextDepartmentId := d + 1), Some(d))
    else if |named| == 1 then
      SingletonUnique(named);
      var d :| d in named;
      DepartmentFetch(t, Some(d))
    else DepartmentFetch(t, None)
  }

  /** A second `get_or_create` of the same name finds the department the
      first one returned and writes nothing. */
  lemma GetOrCreateIdempotent(t: StaffTables, name: string)
    requires StaffConsistent(t)
    requires GetOrCreateDepartment(t, name).department.Some?
    ensures var r := GetOrCreateDepartment(t, name);
      GetOrCreateDepartment(r.tables, name) == r
  {
    var r := GetOrCreateDepartment(t, name);
    var named := Named(t.departments, name);
    if named == {} {
      var d := t.nextDepartmentId;
      assert d !in t.departments;
      assert Named(r.tables.departments, name) == {d};
    }
  }

  /** Creating a department keeps the tables consistent. */
  lemma GetOrCreateKeepsConsistent(t: StaffTables, name: string)
    requires StaffConsistent(t)
    ensures StaffConsistent(GetOrCreateDepartment(t, name).tables)
  {
  }

  // --- create_staff ----------------------------------------------------------

  /** `yearsOfExperience` after `int(...)`: absent, a number, or a value
      `int` refuses. */
  datatype YearsInput = YearsAbsent | YearsNumber(n: int) | YearsNotANumber

  /** The request body; `None` stands for an absent key. */
  datatype StaffForm = StaffForm(
    id: Option<string>,
    name: Option<string>,
    email: Option<string>,
    department: Option<string>,
    emergencyContact: Option<Contact>,
    emergencyContactAlt: Option<Contact>,
    role: Option<string>,
    status: Option<string>,
    phone: Option<string>,
    address: Option<string>,
    specializations: Option<string>,
    dateOfJoining: Option<Date>,
    yearsOfExperience: YearsInput,
    qualifications: Option<QualificationsInput>)

  /** The authentication failure for an anonymous request (401 or 403,
      as the authentication backend decides); 500 for any exception the
      view catches. */
  datatype StaffCreateError = NotAuthenticated | ServerError

  datatype StaffCreateOutcome = StaffMade(row: StaffRowId) | StaffFailed(error: StaffCreateError)

  datatype CreateStaffChange = CreateStaffChange(tables: StaffTables, outcome: StaffCreateOutcome)

  predicate IsUuidHex(uuidHex: string)
  {
    |uuidHex| == 32 && forall i :: 0 <= i < |uuidHex| ==> StaffViews.IsLowerHexDigit(uuidHex[i])
  }

  /** `request.data.get('id', f"S{uuid.uuid4().hex[:5].upper()}")`. */
  function StaffIdOf(form: StaffForm, uuidHex: string): string
    requires IsUuidHex(uuidHex)
  {
    if form.id.Some? then form.id.value else StaffViews.GeneratedStaffId(uuidHex)
  }

  /** The account `create_user` is asked for. */
  function AccountOf(form: StaffForm, staffId: string, picks: nat -> nat): Account
  {
    var name := OrElse(form.name, "");
    Account(Username(staffId), EmailOf(form.email, Username(staffId)), GeneratePassword(picks),
            FirstName(name), LastName(name))
  }

  predicate UsernameTaken(accounts: map<UserId, Account>, username: string)
  {
    exists u :: u in accounts && accounts[u].username == username
  }

  predicate StaffIdTaken(members: map<StaffRowId, StaffMember>, staffId: string)
  {
    exists s :: s in members && members[s].staffId == staffId
  }

  predicate YearsRefused(y: YearsInput)
  {
    y.YearsNotANumber? || (y.YearsNumber? && y.n < 0)
  }

  /** The staff row `Staff.objects.create` is asked for. */
  function MemberOf(form: StaffForm, user: UserId, staffId: string, department: DepartmentId, today: Date): StaffMember
    requires !YearsRefused(form.yearsOfExperience)
  {
    StaffMember(user, staffId, Lowered(form.role, DEFAULT_ROLE), Some(department), Lowered(form.status, ACTIVE),
                Some(OrElse(form.specializations, "")), Qualifications(form.qualifications),
                if form.yearsOfExperience.YearsNumber? then form.yearsOfExperience.n else 0,
                None, OrElse(form.phone, ""), OrElse(form.address, ""),
                EmergencyContact(form.emergencyContact, form.emergencyContactAlt),
                OrElse(form.dateOfJoining, today))
  }

  /** `User.objects.create_user`: the account under the next user id. */
  function AddAccount(t: StaffTables, a: Account): (t': StaffTables)
    ensures t'.accounts == t.accounts[t.nextUserId := a] && t'.nextUserId == t.nextUserId + 1
    ensures t' == t.(accounts := t'.accounts, nextUserId := t'.nextUserId)
  {
    t.(accounts := t.accounts[t.nextUserId := a], nextUserId := t.nextUserId + 1)
  }

  /** `Staff.objects.create`: the row under the next row id. */
  function AddMember(t: StaffTables, m: StaffMember): (t': StaffTables)
    ensures t'.members == t.members[t.nextStaffRowId := m] && t'.nextStaffRowId == t.nextStaffRowId + 1
    ensures t' == t.(members := t'.members, nextStaffRowId := t'.nextStaffRowId)
  {
    t.(members := t.members[t.nextStaffRowId := m], nextStaffRowId := t.nextStaffRowId + 1)
  }

  lemma AddAccountKeepsConsistent(t: StaffTables, a: Account)
    requires StaffConsistent(t)
    ensures StaffConsistent(AddAccount(t, a))
  {
  }

  /** A row whose account and department exist, whose account has no row
      yet and whose `staff_id` is free keeps the tables consistent. */
  lemma AddMemberKeepsConsistent(t: StaffTables, m: StaffMember)
    requires StaffConsistent(t)
    requires m.user in t.accounts && (m.department.Some? ==> m.department.value in t.departments)
    requires !StaffIdTaken(t.members, m.staffId)
    requires forall s :: s in t.members ==> t.members[s].user != m.user
    ensures StaffConsistent(AddMember(t, m))
  {
    var t' := AddMember(t, m);
    forall i | 0 <= i < |t'.activities| ensures t'.activities[i].staff in t'.members {
      assert t'.activities[i] == t.activities[i];
    }
  }

  /** `create_staff`, step by step: the account (a taken username raises
      before anything is written), then the department fetched or
      created by name, then the staff row, which a refused year count or
      a taken `staff_id` stops with the account and department already
      written. No activity is logged. */
  function CreateStaffStep(t: StaffTables, u: User, form: StaffForm, uuidHex: string, picks: nat -> nat, today: Date): (c: CreateStaffChange)
    requires IsUuidHex(uuidHex)
    ensures c.outcome == StaffFailed(NotAuthenticated) <==> !u.authenticated
    ensures c.tables.activities == t.activities
    ensures c.outcome.StaffMade? ==>
      && c.outcome.row == t.nextStaffRowId
      && t.nextStaffRowId in c.tables.members
      && c.tables.members == t.members[t.nextStaffRowId := c.tables.members[t.nextStaffRowId]]
    ensures c.outcome.StaffFailed? ==> c.tables.members == t.members
    ensures u.authenticated && UsernameTaken(t.accounts, Username(StaffIdOf(form, uuidHex))) ==>
      c == CreateStaffChange(t, StaffFailed(ServerError))
    ensures u.authenticated && !UsernameTaken(t.accounts, Username(StaffIdOf(form, uuidHex))) ==>
      && c.tables.accounts == t.accounts[t.nextUserId := AccountOf(form, StaffIdOf(form, uuidHex), picks)]
      && c.tables.nextUserId == t.nextUserId + 1
  {
    if !u.authenticated then CreateStaffChange(t, StaffFailed(NotAuthenticated))
    else
      var staffId := StaffIdOf(form, uuidHex);
      var account := AccountOf(form, staffId, picks);
      if UsernameTaken(t.accounts, account.username) then CreateStaffChange(t, StaffFailed(ServerError))
      else
        var t1 := AddAccount(t, account);
        var fetch := GetOrCreateDepartment(t1, OrElse(form.department, DEFAULT_DEPARTMENT));
        var t2 := fetch.tables;
        if fetch.department.None? || YearsRefused(form.yearsOfExperience) || StaffIdTaken(t2.members, staffId) then
          CreateStaffChange(t2, StaffFailed(ServerError))
        else
          CreateStaffChange(AddMember(t2, MemberOf(form, t.nextUserId, staffId, fetch.department.value, today)),
                            StaffMade(t2.nextStaffRowId))
  }

  /** A created row points to the new account, whose username is
      'staff_' and the lower-cased `staff_id`, and to a department of the
      requested name (default 'Pharmacy'); its role and status are the
      lower-cased request values and its `staff_id` was free; every other
      attribute is the request's value or its default, as `MemberOf`
      builds it. */
  lemma CreatedRow(t: StaffTables, u: User, form: StaffForm, uuidHex: string, picks: nat -> nat, today: Date)
    requires IsUuidHex(uuidHex)
    ensures var c := CreateStaffStep(t, u, form, uuidHex, picks, today);
      c.outcome.StaffMade? ==>
        var m := c.tables.members[c.outcome.row];
        && m.user == t.nextUserId
        && m.user in c.tables.accounts
        && c.tables.accounts[m.user].username == USERNAME_PREFIX + Lower(m.staffId)
        && (form.id.None? ==> |m.staffId| == 6 && m.staffId[0] == 'S')
        && m.department.Some? && m.department.value in c.tables.departments
        && c.tables.departments[m.department.value].name == OrElse(form.department, DEFAULT_DEPARTMENT)
        && m.role == Lower(OrElse(form.role, DEFAULT_ROLE))
        && m.status == Lower(OrElse(form.status, ACTIVE))
        && !StaffIdTaken(t.members, m.staffId)
        && !YearsRefused(form.yearsOfExperience)
        && m == MemberOf(form, t.nextUserId, m.staffId, m.department.value, today)
        && m.qualifications == Qualifications(form.qualifications)
        && m.emergencyContact == EmergencyContact(form.emergencyContact, form.emergencyContactAlt)
  {
  }

  /** Failures after the account is written leave it behind: a refused
      year count with a fresh username fails with the account created. */
  lemma RefusedYearsKeepAccount(t: StaffTables, u: User, form: StaffForm, uuidHex: string, picks: nat -> nat, today: Date)
    requires IsUuidHex(uuidHex) && StaffConsistent(t)
    requires u.authenticated && YearsRefused(form.yearsOfExperience)
    requires !UsernameTaken(t.accounts, Username(StaffIdOf(form, uuidHex)))
    ensures var c := CreateStaffStep(t, u, form, uuidHex, picks, today);
      && c.outcome == StaffFailed(ServerError)
      && t.nextUserId in c.tables.accounts && t.nextUserId !in t.accounts
  {
  }

  /** A create keeps the staff tables consistent on every path. */
  lemma CreateStaffKeepsConsistent(t: StaffTables, u: User, form: StaffForm, uuidHex: string, picks: nat -> nat, today: Date)
    requires IsUuidHex(uuidHex)
    requires StaffConsistent(t)
    ensures StaffConsistent(CreateStaffStep(t, u, form, uuidHex, picks, today).tables)
  {
    if u.authenticated {
      var staffId := StaffIdOf(form, uuidHex);
      var account := AccountOf(form, staffId, picks);
      if !UsernameTaken(t.accounts, account.username) {
        var t1 := AddAccount(t, account);
        AddAccountKeepsConsistent(t, account);
        var fetch := GetOrCreateDepartment(t1, OrElse(form.department, DEFAULT_DEPARTMENT));
        GetOrCreateKeepsConsistent(t1, OrElse(form.department, DEFAULT_DEPARTMENT));
        var t2 := fetch.tables;
        if !(fetch.department.None? || YearsRefused(form.yearsOfExperience) || StaffIdTaken(t2.members, staffId)) {
          var m := MemberOf(form, t.nextUserId, staffId, fetch.department.value, today);
          forall s | s in t2.members ensures t2.members[s].user != m.user {
            assert t2.members[s].user in t.accounts;
          }
          AddMemberKeepsConsistent(t2, m);
        }
      }
    }
  }

  /** After a create, a second one whose `staff_id` agrees with the first
      ignoring case fails with 500 and writes nothing, since both map to
      the same username. */
  lemma CaseVariantIdsCollide(t: StaffTables, u: User, form: StaffForm, form': StaffForm, uuidHex: string, picks: nat -> nat, today: Date)
    requires IsUuidHex(uuidHex)
    requires u.authenticated && form.id.Some? && form'.id.Some? && Lower(form.id.value) == Lower(form'.id.value)
    requires CreateStaffStep(t, u, form, uuidHex, picks, today).outcome.StaffMade?
    ensures var t' := CreateStaffStep(t, u, form, uuidHex, picks, today).tables;
      CreateStaffStep(t', u, form', uuidHex, picks, today) == CreateStaffChange(t', StaffFailed(ServerError))
  {
    var t' := CreateStaffStep(t, u, form, uuidHex, picks, today).tables;
    UsernameCaseless(form.id.value, form'.id.value);
    assert t'.accounts[t.nextUserId].username == Username(form'.id.value);
  }

  /** `create_staff` on the roster: the account, the department and the
      staff row written one after another. */
  method CreateStaff(roster: StaffRoster, u: User, form: StaffForm, uuidHex: string, picks: nat -> nat, today: Date)
    returns (outcome: StaffCreateOutcome)
    requires IsUuidHex(uuidHex)
    modifies roster
    ensures CreateStaffChange(roster.Snapshot(), outcome) == CreateStaffStep(old(roster.Snapshot()), u, form, uuidHex, picks, today)
  {
    if !u.authenticated {
      return StaffFailed(NotAuthenticated);
    }
    ghost var t := roster.Snapshot();
    var staffId := StaffIdOf(form, uuidHex);
    var account := AccountOf(form, staffId, picks);
    if UsernameTaken(roster.accounts, account.username) {
      return StaffFailed(ServerError);
    }
    var user := roster.nextUserId;
    roster.accounts := roster.accounts[user := account];
    roster.nextUserId := user + 1;
    ghost var t1 := roster.Snapshot();
    assert t1 == AddAccount(t, account);

    var fetch := GetOrCreateDepartment(roster.Snapshot(), OrElse(form.department, DEFAULT_DEPARTMENT));
    roster.departments := fetch.tables.departments;
    roster.nextDepartmentId := fetch.tables.nextDepartmentId;
    assert roster.Snapshot() == fetch.tables;
    if fetch.department.None? {
      return StaffFailed(ServerError);
    }

    if YearsRefused(form.yearsOfExperience) {
      return StaffFailed(ServerError);
    }
    if StaffIdTaken(roster.members, staffId) {
      return StaffFailed(ServerError);
    }
    var row := roster.nextStaffRowId;
    roster.members := roster.members[row := MemberOf(form, user, staffId, fetch.department.value, today)];
    roster.nextStaffRowId := row + 1;
    assert roster.Snapshot() == AddMember(fetch.tables, MemberOf(form, t.nextUserId, staffId, fetch.department.value, today));
    outcome := StaffMade(row);
  }
}
