/** Local authentication: the email check, the fixed list of accounts, and the
    storage slot `@MyApp:CurrentUser` that remembers who is signed in. */
module Auth {
  import opened Base
  import opened Strings

  // ---------------------------------------------------------------- isValidEmail

  /** No whitespace and no '@': the class `[^\s@]`. */
  predicate NoSpaceOrAt(s: string) {
    forall i :: 0 <= i < |s| ==> !IsSpace(s[i]) && s[i] != '@'
  }

  /** The regular expression `^[^\s@]+@[^\s@]+\.[^\s@]+$` matches `s` with its
      '@' at `at` and the '.' it needs at `dot`. */
  ghost predicate EmailPatternAt(s: string, at: int, dot: int) {
    && 0 < at && at + 1 < dot && dot + 1 < |s|
    && s[at] == '@' && s[dot] == '.'
    && NoSpaceOrAt(s[..at]) && NoSpaceOrAt(s[at + 1..dot]) && NoSpaceOrAt(s[dot + 1..])
  }

  ghost predicate MatchesEmailPattern(s: string) {
    exists at, dot :: EmailPatternAt(s, at, dot)
  }

  /** The first position of `c` in `s`, or `|s|` when there is none. */
  function IndexOf(s: string, c: char): (i: nat)
    ensures i <= |s|
    ensures i < |s| ==> s[i] == c
    ensures c !in s[..i]
  {
    if s == [] then 0
    else if s[0] == c then 0
    else
      var j := IndexOf(s[1..], c);
      assert s[..j + 1] == [s[0]] + s[1..][..j];
      j + 1
  }

  /** What the regular expression demands, decided from the first '@': a
      non-empty local part, and after the '@' no whitespace or second '@' and a
      '.' with at least one character on either side. */
  predicate EmailShape(s: string) {
    var at := IndexOf(s, '@');
    && 0 < at && at + 3 <= |s|
    && NoSpaceOrAt(s[..at]) && NoSpaceOrAt(s[at + 1..])
    && '.' in s[at + 2..|s| - 1]
  }

  /** `isValidEmail`: the pattern is tested on the trimmed address. */
  predicate IsValidEmail(email: string) {
    EmailShape(Trim(email))
  }

  lemma {:induction false} NoSpaceOrAtSlice(s: string, i: int, j: int)
    requires NoSpaceOrAt(s) && 0 <= i <= j <= |s|
    ensures NoSpaceOrAt(s[i..j])
  {
    forall k | 0 <= k < j - i
      ensures !IsSpace(s[i..j][k]) && s[i..j][k] != '@'
    {
      assert s[i..j][k] == s[i + k];
    }
  }

  lemma {:induction false} EmailShapeMatches(s: string)
    requires EmailShape(s)
    ensures MatchesEmailPattern(s)
  {
    var at := IndexOf(s, '@');
    var mid := s[at + 2..|s| - 1];
    var k :| 0 <= k < |mid| && mid[k] == '.';
    var dot := at + 2 + k;
    assert s[dot] == '.';
    assert s[at + 1..dot] == s[at + 1..][..dot - at - 1];
    assert s[dot + 1..] == s[at + 1..][dot - at..];
    NoSpaceOrAtSlice(s[at + 1..], 0, dot - at - 1);
    NoSpaceOrAtSlice(s[at + 1..], dot - at, |s| - at - 1);
    assert EmailPatternAt(s, at, dot);
  }

  lemma {:induction false} MatchesEmailShape(s: string, at: int, dot: int)
    requires EmailPatternAt(s, at, dot)
    ensures EmailShape(s)
  {
    var i := IndexOf(s, '@');
    assert forall j :: 0 <= j < at ==> s[j] == s[..at][j];
    assert forall j :: 0 <= j < i ==> s[j] == s[..i][j];
    assert i == at;
    var tail := s[at + 1..];
    forall k | 0 <= k < |tail|
      ensures !IsSpace(tail[k]) && tail[k] != '@'
    {
      if at + 1 + k < dot {
        assert tail[k] == s[at + 1..dot][k];
      } else if at + 1 + k > dot {
        assert tail[k] == s[dot + 1..][at + k - dot];
      }
    }
    assert s[at + 2..|s| - 1][dot - at - 2] == '.';
  }

  /** The computed check decides exactly the regular expression. */
  lemma IsValidEmailIsPattern(email: string)
    ensures IsValidEmail(email) <==> MatchesEmailPattern(Trim(email))
  {
    var s := Trim(email);
    if EmailShape(s) {
      EmailShapeMatches(s);
    }
    if MatchesEmailPattern(s) {
      var at, dot :| EmailPatternAt(s, at, dot);
      MatchesEmailShape(s, at, dot);
    }
  }

  /** Surrounding whitespace never changes the verdict. */
  lemma IsValidEmailIgnoresPadding(a: string, email: string, b: string)
    requires AllSpace(a) && AllSpace(b)
    ensures IsValidEmail(a + email + b) == IsValidEmail(email)
  {
    TrimIgnoresPadding(a, email, b);
  }

  /** A valid address, once trimmed, has exactly one '@' and no whitespace. */
  lemma ValidEmailShape(email: string)
    requires IsValidEmail(email)
    ensures Count(Trim(email), '@') == 1
    ensures forall i :: 0 <= i < |Trim(email)| ==> !IsSpace(Trim(email)[i])
  {
    var s := Trim(email);
    SingleAt(s, IndexOf(s, '@'));
  }

  /** A text made of two `[^\s@]` runs around an '@'. */
  lemma SingleAt(s: string, at: int)
    requires 0 <= at < |s| && s[at] == '@'
    requires NoSpaceOrAt(s[..at]) && NoSpaceOrAt(s[at + 1..])
    ensures Count(s, '@') == 1
    ensures forall i :: 0 <= i < |s| ==> !IsSpace(s[i])
  {
    assert s == s[..at] + [s[at]] + s[at + 1..];
    CountAppend(s[..at] + [s[at]], s[at + 1..], '@');
    CountAppend(s[..at], [s[at]], '@');
    forall i | 0 <= i < |s|
      ensures !IsSpace(s[i])
    {
      if i < at {
        assert s[i] == s[..at][i];
      } else if i > at {
        assert s[i] == s[at + 1..][i - at - 1];
      }
    }
  }

  // ---------------------------------------------------------------- accounts

  datatype Account = Account(email: string, password: string)

  /** The fixed list of accounts. */
  const ValidUsers: seq<Account> := [Account("demo@eva.com", "2025"), Account("visitante@eva.com", "1234")]

  /** The test `find` applies: the account's email lower-cased equals the
      normalised address, and the password is equal as typed. */
  predicate AccountMatches(a: Account, email: string, password: string) {
    ToLower(a.email) == email && a.password == password
  }

  /** `VALID_USERS.find(...)`: the first matching account. */
  function FindUser(users: seq<Account>, email: string, password: string): (r: Option<Account>)
    ensures r.Some? <==> exists i :: 0 <= i < |users| && AccountMatches(users[i], email, password)
    ensures r.Some? ==> r.value in users && AccountMatches(r.value, email, password)
  {
    if users == [] then None
    else if AccountMatches(users[0], email, password) then Some(users[0])
    else
      var r := FindUser(users[1..], email, password);
      assert forall i :: 1 <= i < |users| ==> users[i] == users[1..][i - 1];
      r
  }

  /** Whether `authenticate` finds an account for these credentials. */
  predicate Authenticates(email: string, password: string) {
    FindUser(ValidUsers, TrimLower(email), password).Some?
  }

  /** The address is normalised before the lookup, the password is not. */
  lemma AuthenticateNormalisesOnlyTheEmail(a: string, email: string, b: string, password: string)
    requires AllSpace(a) && AllSpace(b)
    ensures Authenticates(a + email + b, password) == Authenticates(email, password)
    ensures Authenticates(ToLower(email), password) == Authenticates(email, password)
  {
    TrimIgnoresPadding(a, email, b);
    var t := Trim(email);
    ToLowerTrim(email);
    ToLowerIdempotent(t);
  }

  /** The password is compared as typed: a password with whitespace at either
      end never signs in, since no account's password has any. */
  lemma PasswordIsExact(email: string, password: string)
    requires !IsTrimmed(password)
    ensures !Authenticates(email, password)
  {
    var found := FindUser(ValidUsers, TrimLower(email), password);
    if found.Some? {
      PasswordsAreTrimmed(found.value);
    }
  }

  lemma PasswordsAreTrimmed(a: Account)
    requires a in ValidUsers
    ensures IsTrimmed(a.password)
  {
  }

  // ---------------------------------------------------------------- current user

  /** What `JSON.parse` makes of the text in the current-user slot: an object
      whose `email` is a string, some other JSON value, or text that is not
      JSON at all. JSON itself is not modelled; `authenticate` writes a
      `JsonUser`. */
  datatype StoredUser = JsonUser(email: string) | JsonOther | RawText(text: string)

  datatype User = User(email: string)

  /** `getCurrentUser` on the slot's contents: an unreadable, missing or empty
      slot and a JSON value without an email give no user; the email, or the
      raw text, is normalised. */
  function CurrentUserFrom(slot: Option<StoredUser>, read: StorageOp): (u: Option<User>)
    ensures u.Some? ==> IsNormal(u.value.email)
    ensures read.Fails? || slot.None? ==> u.None?
    ensures read.Succeeds? && slot.Some? && slot.value.JsonUser? ==> u == Some(User(TrimLower(slot.value.email)))
    ensures read.Succeeds? && slot == Some(JsonOther) ==> u.None?
    ensures read.Succeeds? && slot == Some(RawText("")) ==> u.None?
    ensures read.Succeeds? && slot.Some? && slot.value.RawText? && slot.value.text != "" ==>
      u == Some(User(TrimLower(slot.value.text)))
  {
    if read.Fails? || slot.None? then None
    else
      match slot.value
      case JsonUser(email) =>
        TrimLowerIsNormal(email);
        Some(User(TrimLower(email)))
      case JsonOther => None
      case RawText(text) =>
        if text == "" then None
        else
          TrimLowerIsNormal(text);
          Some(User(TrimLower(text)))
  }

  /** What `authenticate` stores is read back unchanged. */
  lemma CurrentUserRoundTrip(email: string)
    ensures CurrentUserFrom(Some(JsonUser(TrimLower(email))), Succeeds) == Some(User(TrimLower(email)))
  {
    var n := TrimLower(email);
    assert CurrentUserFrom(Some(JsonUser(n)), Succeeds) == Some(User(TrimLower(n)));
    TrimLowerIdempotent(email);
  }

  /** The storage slot `@MyApp:CurrentUser`. */
  class CurrentUserStore {
    var slot: Option<StoredUser>

    constructor(initial: Option<StoredUser>)
      ensures slot == initial
    {
      slot := initial;
    }

    /** `authenticate`. The simulated delay is not modelled. Without a matching
        account the slot is removed, and a failure to remove it rejects the
        whole call; with one, the normalised address is stored, and a failure
        to store it is swallowed. */
    method Authenticate(email: string, password: string, write: StorageOp, remove: StorageOp) returns (r: Settled<bool>)
      modifies this
      ensures !Authenticates(email, password) && remove.Succeeds? ==> r == Returns(false) && slot == None
      ensures !Authenticates(email, password) && remove.Fails? ==> r == Throws(remove.message) && slot == old(slot)
      ensures Authenticates(email, password) ==>
        r == Returns(true) && slot == (if write.Succeeds? then Some(JsonUser(TrimLower(email))) else old(slot))
    {
      var normalized := TrimLower(email);
      var found := FindUser(ValidUsers, normalized, password);
      if found.None? {
        if remove.Fails? {
          return Throws(remove.message);
        }
        slot := None;
        return Returns(false);
      }
      if write.Succeeds? {
        slot := Some(JsonUser(normalized));
      }
      return Returns(true);
    }

    /** `getCurrentUser`. */
    method GetCurrentUser(read: StorageOp) returns (u: Option<User>)
      ensures u == CurrentUserFrom(slot, read)
    {
      u := CurrentUserFrom(slot, read);
    }

    /** `clearCurrentUser`: a failure to remove the slot is swallowed. */
    method ClearCurrentUser(remove: StorageOp)
      modifies this
      ensures slot == if remove.Succeeds? then None else old(slot)
    {
      if remove.Succeeds? {
        slot := None;
      }
    }
  }
}
