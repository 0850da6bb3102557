/**
 * The sign-up rules of `render_signup` (src/ui/auth_ui.py): the suggested user name, and the
 * validation that collects one error per failed rule before an account may be created.
 *
 * The user database is the predicate `taken` (`UserManager.get_user` finding a record); the form
 * widgets, the profile picture and the account record are not part of this model.
 */
module AuthUi {
  import opened Text

  /** `name.lower().replace(' ', '')`: lower case and without spaces. */
  function Squash(name: string): (r: string)
    ensures |r| <= |name|
    ensures forall i | 0 <= i < |r| :: r[i] != ' ' && !IsUpper(r[i])
  {
    var l := Lower(name);
    ReplaceDeletes(l, ' ');
    var r := Replace(l, " ", []);
    forall i | 0 <= i < |r|
      ensures !IsUpper(r[i])
    {
      var j :| 0 <= j < |l| && l[j] == r[i];
    }
    r
  }

  /** `suggest_username`: both squashed names joined by a dot, or nothing if either is empty. */
  function SuggestUsername(firstName: string, lastName: string): string {
    var fn := Squash(firstName);
    var ln := Squash(lastName);
    if fn != [] && ln != [] then fn + "." + ln else []
  }

  /**
   * A name is suggested exactly when both names still have characters once spaces are removed;
   * the suggestion then has no space and no upper-case letter, and the squashed first name is
   * exactly what precedes its first dot when the first name has no dot.
   */
  lemma SuggestionShape(firstName: string, lastName: string)
    ensures var fn := Squash(firstName);
            var ln := Squash(lastName);
            var r := SuggestUsername(firstName, lastName);
      && (r == [] <==> fn == [] || ln == [])
      && (r != [] ==> r[..|fn|] == fn && r[|fn|] == '.' && r[|fn| + 1..] == ln)
      && forall i | 0 <= i < |r| :: r[i] != ' ' && !IsUpper(r[i])
  {
    var fn := Squash(firstName);
    var ln := Squash(lastName);
    var r := SuggestUsername(firstName, lastName);
    if r != [] {
      forall i | 0 <= i < |r|
        ensures r[i] != ' ' && !IsUpper(r[i])
      {
        if i < |fn| {
          assert r[i] == fn[i];
        } else if i > |fn| {
          assert r[i] == ln[i - |fn| - 1];
        } else {
          assert r[i] == '.';
        }
      }
    }
  }

  /** The form fields the validation reads. */
  datatype SignupForm = SignupForm(firstName: string, lastName: string, username: string, password: string)

  /** One message of the error list, in the order the checks run. */
  datatype SignupError =
    | FirstNameRequired
    | LastNameRequired
    | UsernameRequired
    | PasswordRequired
    | UsernameTooShort
    | UsernameNotLowercase
    | UsernameCharset
    | PasswordTooShort
    | PasswordNoUpper
    | PasswordNoLower
    | PasswordNoDigit
    | PasswordNoSpecial
    | UsernameTaken(username: string)

  /** The text shown for each error. */
  function Message(e: SignupError): string {
    match e
    case FirstNameRequired => "First Name is required."
    case LastNameRequired => "Last Name is required."
    case UsernameRequired => "Username is required."
    case PasswordRequired => "Password is required."
    case UsernameTooShort => "Username must be at least 4 characters long."
    case UsernameNotLowercase => "Username must be in lowercase (no uppercase letters)."
    case UsernameCharset => "Username can only contain lowercase letters, numbers, dots, and underscores."
    case PasswordTooShort => "Password must be at least 8 characters long."
    case PasswordNoUpper => "Password must contain at least one uppercase letter."
    case PasswordNoLower => "Password must contain at least one lowercase letter."
    case PasswordNoDigit => "Password must contain at least one digit."
    case PasswordNoSpecial => "Password must contain at least one special character."
    case UsernameTaken(u) => "Username '" + u + "' is already taken."
  }

  /** The position of the check that reports the error. */
  function Rank(e: SignupError): nat {
    match e
    case FirstNameRequired => 0
    case LastNameRequired => 1
    case UsernameRequired => 2
    case PasswordRequired => 3
    case UsernameTooShort => 4
    case UsernameNotLowercase => 5
    case UsernameCharset => 6
    case PasswordTooShort => 7
    case PasswordNoUpper => 8
    case PasswordNoLower => 9
    case PasswordNoDigit => 10
    case PasswordNoSpecial => 11
    case UsernameTaken(_) => 12
  }

  /** The characters of the special-character class of the password rule. */
  const Specials := "!@#$%^&*(),.?\":{}|<>"

  /** A character of `[a-z0-9_.]`. */
  predicate UsernameChar(c: char) { IsLower(c) || IsDigit(c) || c == '_' || c == '.' }

  predicate HasUpper(s: string) { exists i | 0 <= i < |s| :: IsUpper(s[i]) }
  predicate HasLower(s: string) { exists i | 0 <= i < |s| :: IsLower(s[i]) }
  predicate HasDigit(s: string) { exists i | 0 <= i < |s| :: IsDigit(s[i]) }
  predicate HasSpecial(s: string) { exists i | 0 <= i < |s| :: s[i] in Specials }

  /** `re.match(r'^[a-z0-9_.]+$', username)` on a stripped name. */
  predicate MatchesCharset(s: string) { s != [] && forall i | 0 <= i < |s| :: UsernameChar(s[i]) }

  /** The user name the form submits: the input lower-cased, then stripped. */
  function Normalize(input: string): string { Strip(Lower(input)) }

  /** Whether the rule that reports `e` fails for the form with the submitted user name `u`. */
  predicate Fails(e: SignupError, f: SignupForm, u: string, taken: string -> bool) {
    var p := f.password;
    match e
    case FirstNameRequired => f.firstName == []
    case LastNameRequired => f.lastName == []
    case UsernameRequired => u == []
    case PasswordRequired => p == []
    case UsernameTooShort => u != [] && |u| < 4
    case UsernameNotLowercase => u != [] && HasUpper(u)
    case UsernameCharset => u != [] && !MatchesCharset(u)
    case PasswordTooShort => p != [] && |p| < 8
    case PasswordNoUpper => p != [] && !HasUpper(p)
    case PasswordNoLower => p != [] && !HasLower(p)
    case PasswordNoDigit => p != [] && !HasDigit(p)
    case PasswordNoSpecial => p != [] && !HasSpecial(p)
    case UsernameTaken(name) => name == u && u != [] && taken(u)
  }

  /** The errors appear in the order of the checks, each at most once. */
  predicate InCheckOrder(errors: seq<SignupError>) {
    forall i, j | 0 <= i < j < |errors| :: Rank(errors[i]) < Rank(errors[j])
  }

  /** The errors are exactly those of the failing rules. */
  ghost predicate Reports(errors: seq<SignupError>, f: SignupForm, u: string, taken: string -> bool) {
    forall e :: e in errors <==> Fails(e, f, u, taken)
  }

  /** The form passes every rule: the account may be created. */
  predicate Acceptable(f: SignupForm, u: string, taken: string -> bool) {
    && f.firstName != [] && f.lastName != []
    && |u| >= 4 && MatchesCharset(u)
    && |f.password| >= 8 && HasUpper(f.password) && HasLower(f.password)
    && HasDigit(f.password) && HasSpecial(f.password)
    && !taken(u)
  }

  /**
   * The validation block of `render_signup`: the normalised user name, the error list, and
   * whether `create_user` is called (only when no rule failed).
   */
  method ValidateSignup(f: SignupForm, taken: string -> bool)
    returns (username: string, errors: seq<SignupError>, create: bool)
    ensures username == Normalize(f.username)
    ensures Reports(errors, f, username, taken)
    ensures InCheckOrder(errors)
    ensures create <==> errors == []
    ensures create <==> Acceptable(f, username, taken)
  {
    username := Lower(f.username);
    username := Strip(username);
    errors := RequiredChecks(f, username, taken);
    errors := UsernameChecks(errors, f, username, taken);
    errors := PasswordChecks(errors, f, username, taken);
    errors := UniquenessCheck(errors, f, username, taken);
    NoErrorsIffAcceptable(f, username, taken, errors);
    create := errors == [];
  }

  /** 1. Required fields. */
  method RequiredChecks(f: SignupForm, u: string, taken: string -> bool) returns (errors: seq<SignupError>)
    ensures Stage(errors, f, u, taken, 4)
  {
    errors := [];
    errors := Check(errors, f, u, taken, FirstNameRequired, f.firstName == []);
    errors := Check(errors, f, u, taken, LastNameRequired, f.lastName == []);
    errors := Check(errors, f, u, taken, UsernameRequired, u == []);
    errors := Check(errors, f, u, taken, PasswordRequired, f.password == []);
  }

  /** 2. User name rules, for a non-empty name. */
  method UsernameChecks(errors: seq<SignupError>, f: SignupForm, u: string, taken: string -> bool)
    returns (r: seq<SignupError>)
    requires Stage(errors, f, u, taken, 4)
    ensures Stage(r, f, u, taken, 7)
  {
    r := errors;
    if u != [] {
      r := Check(r, f, u, taken, UsernameTooShort, |u| < 4);
      r := Check(r, f, u, taken, UsernameNotLowercase, HasUpper(u));
      r := Check(r, f, u, taken, UsernameCharset, !MatchesCharset(u));
    } else {
      Skip(r, f, u, taken, 4, 7);
    }
  }

  /** 3. Password rules, for a non-empty password. */
  method PasswordChecks(errors: seq<SignupError>, f: SignupForm, u: string, taken: string -> bool)
    returns (r: seq<SignupError>)
    requires Stage(errors, f, u, taken, 7)
    ensures Stage(r, f, u, taken, 12)
  {
    var p := f.password;
    r := errors;
    if p != [] {
      r := Check(r, f, u, taken, PasswordTooShort, |p| < 8);
      r := Check(r, f, u, taken, PasswordNoUpper, !HasUpper(p));
      r := Check(r, f, u, taken, PasswordNoLower, !HasLower(p));
      r := Check(r, f, u, taken, PasswordNoDigit, !HasDigit(p));
      r := Check(r, f, u, taken, PasswordNoSpecial, !HasSpecial(p));
    } else {
      Skip(r, f, u, taken, 7, 12);
    }
  }

  /** 4. Uniqueness, for a non-empty name. */
  method UniquenessCheck(errors: seq<SignupError>, f: SignupForm, u: string, taken: string -> bool)
    returns (r: seq<SignupError>)
    requires Stage(errors, f, u, taken, 12)
    ensures Reports(r, f, u, taken) && InCheckOrder(r)
  {
    r := Check(errors, f, u, taken, UsernameTaken(u), u != [] && taken(u));
  }

  /** One check: append `e` when its rule has `failed`. */
  method Check(errors: seq<SignupError>, f: SignupForm, u: string, taken: string -> bool, e: SignupError, failed: bool)
    returns (r: seq<SignupError>)
    requires Stage(errors, f, u, taken, Rank(e))
    requires e.UsernameTaken? ==> e.username == u
    requires failed == Fails(e, f, u, taken)
    ensures r == if failed then errors + [e] else errors
    ensures Stage(r, f, u, taken, Rank(e) + 1)
  {
    r := errors;
    if failed {
      r := r + [e];
    }
    Advance(errors, f, u, taken, e);
  }

  /** The check of rank `Rank(e)` appends `e` exactly when its rule fails. */
  lemma Advance(errors: seq<SignupError>, f: SignupForm, u: string, taken: string -> bool, e: SignupError)
    requires Stage(errors, f, u, taken, Rank(e))
    requires e.UsernameTaken? ==> e.username == u
    ensures Stage(if Fails(e, f, u, taken) then errors + [e] else errors, f, u, taken, Rank(e) + 1)
  {
    var r := if Fails(e, f, u, taken) then errors + [e] else errors;
    forall x
      ensures x in r <==> Rank(x) < Rank(e) + 1 && Fails(x, f, u, taken)
    {
      if Rank(x) == Rank(e) && Fails(x, f, u, taken) {
        assert x == e;
      }
    }
  }

  /** Checks whose rules cannot fail add nothing. */
  lemma Skip(errors: seq<SignupError>, f: SignupForm, u: string, taken: string -> bool, n: nat, m: nat)
    requires Stage(errors, f, u, taken, n) && n <= m
    requires (n == 4 && m == 7 && u == []) || (n == 7 && m == 12 && f.password == [])
    ensures Stage(errors, f, u, taken, m)
  {
  }

  /** After the checks of rank below `n`: exactly their failures, in order. */
  ghost predicate Stage(errors: seq<SignupError>, f: SignupForm, u: string, taken: string -> bool, n: nat) {
    && InCheckOrder(errors)
    && (forall e | e in errors :: Rank(e) < n)
    && forall e :: e in errors <==> Rank(e) < n && Fails(e, f, u, taken)
  }

  /** No rule fails exactly when the form is acceptable. */
  lemma NoErrorsIffAcceptable(f: SignupForm, u: string, taken: string -> bool, errors: seq<SignupError>)
    requires Reports(errors, f, u, taken)
    ensures errors == [] <==> Acceptable(f, u, taken)
  {
    if errors == [] {
      assert !Fails(FirstNameRequired, f, u, taken) && !Fails(LastNameRequired, f, u, taken);
      assert !Fails(UsernameRequired, f, u, taken) && !Fails(UsernameTooShort, f, u, taken);
      assert !Fails(UsernameCharset, f, u, taken) && !Fails(PasswordRequired, f, u, taken);
      assert !Fails(PasswordTooShort, f, u, taken) && !Fails(PasswordNoUpper, f, u, taken);
      assert !Fails(PasswordNoLower, f, u, taken) && !Fails(PasswordNoDigit, f, u, taken);
      assert !Fails(PasswordNoSpecial, f, u, taken) && !Fails(UsernameTaken(u), f, u, taken);
    } else {
      assert errors[0] in errors;
    }
  }

  /** The lower-case check can never fire: the name was lower-cased before it is checked. */
  lemma NeverReportsUppercase(f: SignupForm, taken: string -> bool)
    ensures !Fails(UsernameNotLowercase, f, Normalize(f.username), taken)
  {
    StripKeepsLower(Lower(f.username));
  }

  /** Stripping a string without upper-case letters leaves none. */
  lemma StripKeepsLower(l: string)
    requires forall i | 0 <= i < |l| :: !IsUpper(l[i])
    ensures forall i | 0 <= i < |Strip(l)| :: !IsUpper(Strip(l)[i])
  {
    var u := Strip(l);
    var k :| StrippedAt(l, u, k);
    forall i | 0 <= i < |u|
      ensures !IsUpper(u[i])
    {
      assert u[i] == l[k + i];
    }
  }

  /** The order of the checks and the set of failures determine the error list completely. */
  lemma {:induction false} ErrorListDetermined(a: seq<SignupError>, b: seq<SignupError>)
    requires InCheckOrder(a) && InCheckOrder(b)
    requires forall e :: e in a <==> e in b
    ensures a == b
  {
    assert a != [] ==> a[0] in b;
    assert b != [] ==> b[0] in a;
    if a != [] && b != [] {
      SameHead(a, b);
      TailMembers(a);
      TailMembers(b);
      ErrorListDetermined(a[1..], b[1..]);
      assert a == [a[0]] + a[1..] && b == [b[0]] + b[1..];
    }
  }

  lemma SameHead(a: seq<SignupError>, b: seq<SignupError>)
    requires InCheckOrder(a) && InCheckOrder(b) && a != [] && b != []
    requires forall e :: e in a <==> e in b
    ensures a[0] == b[0]
  {
    assert b[0] in a && a[0] in b;
    var i :| 0 <= i < |a| && a[i] == b[0];
    var j :| 0 <= j < |b| && b[j] == a[0];
    assert Rank(a[0]) <= Rank(a[i]);
    assert Rank(b[0]) <= Rank(b[j]);
  }

  /** An ordered list holds its head once: the tail is the list without it. */
  lemma TailMembers(a: seq<SignupError>)
    requires InCheckOrder(a) && a != []
    ensures InCheckOrder(a[1..])
    ensures forall e :: e in a[1..] <==> e in a && e != a[0]
  {
    forall e | e in a[1..]
      ensures e != a[0]
    {
      var x :| 0 <= x < |a[1..]| && a[1..][x] == e;
      assert Rank(a[0]) < Rank(a[x + 1]);
    }
    assert a == [a[0]] + a[1..];
  }
}
