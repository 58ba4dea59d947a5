/** The account collections and their statics (`login`, `register`,
    `update…ById`, `updatePasswordByOTP`, `updatePasswordByEmail`,
    `delete…ById`), one store per account kind.

    The operations are first stated on a table of records (the `…Step`
    functions and `LoginOutcome`); the `AccountStore` class then implements
    them on its table and its unique e-mail index, and is proved to agree
    with them. */
module Accounts {
  import opened Wrappers
  import opened Schema
  import opened UserDto
  import Text

  /** A collection: documents by identifier. */
  type Table = map<Id, Account>

  /** The `unique: true` constraint on `email`. */
  ghost predicate UniqueEmails(t: Table) {
    forall i, j :: i in t && j in t && t[i].email == t[j].email ==> i == j
  }

  /** Every document sits under its own identifier and has its schema's paths. */
  ghost predicate WellFormed(kind: Kind, t: Table) {
    forall i :: i in t ==> t[i].id == i && Conforms(kind, t[i])
  }

  ghost predicate HasEmail(t: Table, email: string) {
    exists i :: i in t && t[i].email == email
  }

  /** `findOne({ email })`: the identifier of the record with that e-mail. */
  ghost function WithEmail(t: Table, email: string): (i: Id)
    requires HasEmail(t, email)
    ensures i in t && t[i].email == email
  {
    var i :| i in t && t[i].email == email; i
  }

  /** A record other than `id` already holds `email`. */
  ghost predicate HeldByOther(t: Table, id: Id, email: string) {
    exists j :: j in t && j != id && t[j].email == email
  }

  // The messages the two model files return, word for word.

  function NotFoundMessage(kind: Kind): string {
    match kind
    case User => "User not found"
    case Admin => "Admin not found"
  }

  function AlreadyExistsMessage(kind: Kind): string {
    match kind
    case User => "User already exists"
    case Admin => "Admin already exists"
  }

  const INVALID_PASSWORD: string := "Invalid password"

  function UpdateFailedMessage(kind: Kind): string {
    match kind
    case User => "Failed to update user"
    case Admin => "Failed to update admin"
  }

  const NO_MODIFICATIONS: string := "No modifications were made"

  function NothingDeletedMessage(kind: Kind, id: Id): string {
    match kind
    case User => "No user found to delete with this id: " + Text.NatToString(id)
    case Admin => "No admin found to delete with this id: " + Text.NatToString(id)
  }

  function DeletedMessage(kind: Kind, id: Id): string {
    match kind
    case User => "User deleted successfully with id: " + Text.NatToString(id)
    case Admin => "Admin deleted successfully with id: " + Text.NatToString(id)
  }

  /** The database's refusal of an update that would break the unique
      index on `email`, as a template of the driver's wording (the driver
      also names the database in the collection's namespace). */
  function DuplicateKeyMessage(kind: Kind, email: string): string {
    var collection := match kind case User => "users" case Admin => "admins";
    "E11000 duplicate key error collection: " + collection + " index: email_1 dup key: { email: \"" + email + "\" }"
  }

  /** What an operation returns, and the table it leaves behind. */
  datatype Step<T> = Step(result: Result<T, string>, table: Table)

  /** `login`: find the record by e-mail, compare the password with its
      hash, and on success project it together with a token signed for the
      e-mail. The table is not touched. */
  ghost function LoginOutcome(kind: Kind, crypto: Crypto, t: Table, email: string, password: string): (r: Result<UserLoginDTO, string>)
    requires WellFormed(kind, t)
    ensures r == Failure(NotFoundMessage(kind)) <==> !HasEmail(t, email)
    ensures r.Success? <==> HasEmail(t, email) && crypto.matches(password, t[WithEmail(t, email)].password)
    ensures HasEmail(t, email) && !crypto.matches(password, t[WithEmail(t, email)].password) ==>
      r == Failure(INVALID_PASSWORD)
    ensures r.Success? ==> r.value == NewUserLoginDTO(t[WithEmail(t, email)], crypto.sign(email))
    ensures r.Success? ==> r.value.token == crypto.sign(email) && r.value.email == email
                           && r.value.id in t && t[r.value.id].email == email
  {
    if !HasEmail(t, email) then Failure(NotFoundMessage(kind))
    else
      var user := t[WithEmail(t, email)];
      if !crypto.matches(password, user.password) then Failure(INVALID_PASSWORD)
      else Success(NewUserLoginDTO(user, crypto.sign(user.email)))
  }

  /** `register`: refuse a taken e-mail; otherwise hash the password and save
      a new record under the fresh identifier `id` (saving runs the schema's
      validation), and return its projection with a token signed for the
      e-mail. */
  ghost function RegisterStep(kind: Kind, crypto: Crypto, t: Table, id: Id,
                              name: string, email: string, password: string, salt: Salt, now: int): (s: Step<UserRegisterDTO>)
    requires id !in t
    ensures UniqueEmails(t) ==> UniqueEmails(s.table)
    ensures WellFormed(kind, t) ==> WellFormed(kind, s.table)
    ensures s.result.Failure? ==> s.table == t
    ensures HasEmail(t, email) ==> s.result == Failure(AlreadyExistsMessage(kind))
    ensures s.result.Success? <==> !HasEmail(t, email) && ValidationErrors(name, email) == []
    ensures s.result.Success? ==>
      && s.table.Keys == t.Keys + {id} && |s.table| == |t| + 1
      && (forall j :: j in t ==> s.table[j] == t[j])
      && s.table[id].email == email && s.table[id].name == name
      && s.table[id].password == crypto.hash(password, salt)
      && s.table[id].displayImage == PLACEHOLDER_IMAGE && s.table[id].createdAt == now
      && (kind == User ==> s.table[id].coverImage == Some(PLACEHOLDER_IMAGE))
      && s.result.value == UserRegisterDTO(id, name, email, crypto.sign(email))
  {
    if HasEmail(t, email) then Step(Failure(AlreadyExistsMessage(kind)), t)
    else
      var errors := ValidationErrors(name, email);
      if errors != [] then Step(Failure(ValidationMessage(kind, errors)), t)
      else
        var user := NewAccount(kind, id, name, email, crypto.hash(password, salt), now);
        Step(Success(NewUserRegisterDTO(user, crypto.sign(user.email))), t[id := user])
  }

  /** `update…ById`: `findOneAndUpdate({ _id: id }, { $set: patch }, { new: true })`.
      No record: an error. A new e-mail held by another record: the unique
      index refuses. Otherwise exactly that record takes the patch. */
  ghost function UpdateStep(kind: Kind, t: Table, id: Id, patch: Patch): (s: Step<Account>)
    ensures UniqueEmails(t) ==> UniqueEmails(s.table)
    ensures WellFormed(kind, t) ==> WellFormed(kind, s.table)
    ensures s.result.Failure? ==> s.table == t
    ensures id !in t ==> s.result == Failure(UpdateFailedMessage(kind))
    ensures s.result.Success? <==> id in t && !(patch.email.Some? && HeldByOther(t, id, patch.email.value))
    ensures s.result.Success? ==> s.table == t[id := ApplySet(kind, t[id], patch)] && s.result.value == s.table[id]
  {
    if id !in t then Step(Failure(UpdateFailedMessage(kind)), t)
    else if patch.email.Some? && HeldByOther(t, id, patch.email.value) then
      Step(Failure(DuplicateKeyMessage(kind, patch.email.value)), t)
    else
      var user := ApplySet(kind, t[id], patch);
      Step(Success(user), t[id := user])
  }

  /** `findOneAndUpdate({ email }, { $set: { password: hash } })` on a record
      known to exist. */
  ghost function SetPassword(kind: Kind, t: Table, email: string, hash: Digest): (s: Step<Account>)
    requires HasEmail(t, email)
    ensures var i := WithEmail(t, email);
            && s.table == t[i := t[i].(password := hash)]
            && s.result == Success(s.table[i])
  {
    var i := WithEmail(t, email);
    var user := ApplySet(kind, t[i], NO_CHANGES.(password := Some(hash)));
    ApplyPasswordOnly(kind, t[i], hash);
    Step(Success(user), t[i := user])
  }

  /** `updatePasswordByOTP`. `otpError` is what the one-time-code check
      reported: `Some` of its error text, or `None` when the code was
      accepted. The source tests the text for truthiness, so an empty text
      counts as accepted; the store methods require it never to be given. */
  ghost function ResetByOtpStep(kind: Kind, crypto: Crypto, t: Table, email: string,
                                otpError: Option<string>, newPassword: string, salt: Salt): (s: Step<Account>)
    ensures UniqueEmails(t) ==> UniqueEmails(s.table)
    ensures WellFormed(kind, t) ==> WellFormed(kind, s.table)
    ensures s.result.Failure? ==> s.table == t
    ensures otpError.Some? ==> s.result == Failure(otpError.value)
    ensures otpError.None? && !HasEmail(t, email) ==> s.result == Failure(NO_MODIFICATIONS)
    ensures otpError.None? && HasEmail(t, email) ==>
      var i := WithEmail(t, email);
      s.table == t[i := t[i].(password := crypto.hash(newPassword, salt))] && s.result == Success(s.table[i])
  {
    if otpError.Some? then Step(Failure(otpError.value), t)
    else if !HasEmail(t, email) then Step(Failure(NO_MODIFICATIONS), t)
    else
      ApplyPasswordOnly(kind, t[WithEmail(t, email)], crypto.hash(newPassword, salt));
      SetPassword(kind, t, email, crypto.hash(newPassword, salt))
  }

  /** `updatePasswordByEmail`: the old password must match the stored hash. */
  ghost function ChangePasswordStep(kind: Kind, crypto: Crypto, t: Table, email: string,
                                    oldPassword: string, newPassword: string, salt: Salt): (s: Step<Account>)
    ensures UniqueEmails(t) ==> UniqueEmails(s.table)
    ensures WellFormed(kind, t) ==> WellFormed(kind, s.table)
    ensures s.result.Failure? ==> s.table == t
    ensures !HasEmail(t, email) ==> s.result == Failure(NotFoundMessage(kind))
    ensures HasEmail(t, email) && !crypto.matches(oldPassword, t[WithEmail(t, email)].password) ==>
      s.result == Failure(INVALID_PASSWORD)
    ensures HasEmail(t, email) && crypto.matches(oldPassword, t[WithEmail(t, email)].password) ==>
      var i := WithEmail(t, email);
      s.table == t[i := t[i].(password := crypto.hash(newPassword, salt))] && s.result == Success(s.table[i])
  {
    if !HasEmail(t, email) then Step(Failure(NotFoundMessage(kind)), t)
    else if !crypto.matches(oldPassword, t[WithEmail(t, email)].password) then Step(Failure(INVALID_PASSWORD), t)
    else
      ApplyPasswordOnly(kind, t[WithEmail(t, email)], crypto.hash(newPassword, salt));
      SetPassword(kind, t, email, crypto.hash(newPassword, salt))
  }

  /** `delete…ById`: `deleteOne({ _id: id })`, then a report chosen by the
      deleted count. */
  ghost function DeleteStep(kind: Kind, t: Table, id: Id): (s: Step<string>)
    ensures UniqueEmails(t) ==> UniqueEmails(s.table)
    ensures WellFormed(kind, t) ==> WellFormed(kind, s.table)
    ensures s.table == t - {id} && id !in s.table
    ensures s.result == if id in t then Success(DeletedMessage(kind, id)) else Failure(NothingDeletedMessage(kind, id))
  {
    var deletedCount := if id in t then 1 else 0;
    if deletedCount == 0 then Step(Failure(NothingDeletedMessage(kind, id)), t)
    else Step(Success(DeletedMessage(kind, id)), t - {id})
  }

  /** Registering and then logging in with the same credentials succeeds,
      with the new record's identifier and a token for its e-mail, provided
      the hasher's compare accepts the password its hash was made from. */
  lemma RegisterThenLogin(kind: Kind, crypto: Crypto, t: Table, id: Id,
                          name: string, email: string, password: string, salt: Salt, now: int)
    requires UniqueEmails(t) && WellFormed(kind, t) && id !in t
    requires crypto.matches(password, crypto.hash(password, salt))
    requires RegisterStep(kind, crypto, t, id, name, email, password, salt, now).result.Success?
    ensures LoginOutcome(kind, crypto, RegisterStep(kind, crypto, t, id, name, email, password, salt, now).table, email, password)
         == Success(UserLoginDTO(id, name, email, crypto.sign(email)))
  {
    var u := RegisterStep(kind, crypto, t, id, name, email, password, salt, now).table;
    assert u[id].email == email;
    assert HasEmail(u, email);
    assert WithEmail(u, email) == id;
  }

  /** A second registration with the same e-mail is refused and leaves the
      single record the first one created. */
  lemma RegisterTwice(kind: Kind, crypto: Crypto, t: Table, id: Id, id2: Id,
                      name: string, email: string, password: string, salt: Salt, now: int,
                      name2: string, password2: string, salt2: Salt, now2: int)
    requires UniqueEmails(t) && id !in t
    requires RegisterStep(kind, crypto, t, id, name, email, password, salt, now).result.Success?
    requires id2 !in RegisterStep(kind, crypto, t, id, name, email, password, salt, now).table
    ensures var u := RegisterStep(kind, crypto, t, id, name, email, password, salt, now).table;
            var s := RegisterStep(kind, crypto, u, id2, name2, email, password2, salt2, now2);
            && s.result == Failure(AlreadyExistsMessage(kind))
            && s.table == u
            && (forall j :: j in s.table && s.table[j].email == email ==> j == id)
  {
    var u := RegisterStep(kind, crypto, t, id, name, email, password, salt, now).table;
    assert u[id].email == email;
    assert HasEmail(u, email);
  }

  /** Deleting the same identifier twice: the second attempt always reports
      that nothing was deleted, so a deletion is never counted twice. */
  lemma DeleteTwice(kind: Kind, t: Table, id: Id)
    ensures var s := DeleteStep(kind, DeleteStep(kind, t, id).table, id);
            s.result == Failure(NothingDeletedMessage(kind, id)) && s.table == t - {id}
  {
  }

  /** After a password change the new password logs in and the old one no
      longer does, provided the compare oracle tells a hash's own password
      from the old one. */
  lemma LoginAfterPasswordChange(kind: Kind, crypto: Crypto, t: Table, email: string,
                                 oldPassword: string, newPassword: string, salt: Salt)
    requires UniqueEmails(t) && WellFormed(kind, t)
    requires ChangePasswordStep(kind, crypto, t, email, oldPassword, newPassword, salt).result.Success?
    requires crypto.matches(newPassword, crypto.hash(newPassword, salt))
    requires !crypto.matches(oldPassword, crypto.hash(newPassword, salt))
    ensures var u := ChangePasswordStep(kind, crypto, t, email, oldPassword, newPassword, salt).table;
            && LoginOutcome(kind, crypto, u, email, newPassword).Success?
            && LoginOutcome(kind, crypto, u, email, oldPassword) == Failure(INVALID_PASSWORD)
  {
    var i := WithEmail(t, email);
    var u := ChangePasswordStep(kind, crypto, t, email, oldPassword, newPassword, salt).table;
    assert u[i].email == email;
    assert HasEmail(u, email);
    assert WithEmail(u, email) == i;
  }

  /** The admin store answers with the admin model's own texts. */
  lemma AdminFailureTexts(crypto: Crypto, t: Table, id: Id, newId: Id, email: string, name: string,
                          password: string, newPassword: string, salt: Salt, now: int, patch: Patch)
    requires WellFormed(Admin, t) && newId !in t
    ensures !HasEmail(t, email) ==> LoginOutcome(Admin, crypto, t, email, password) == Failure("Admin not found")
    ensures HasEmail(t, email) && !crypto.matches(password, t[WithEmail(t, email)].password) ==>
      LoginOutcome(Admin, crypto, t, email, password) == Failure("Invalid password")
    ensures HasEmail(t, email) ==>
      RegisterStep(Admin, crypto, t, newId, name, email, password, salt, now).result == Failure("Admin already exists")
    ensures id !in t ==> UpdateStep(Admin, t, id, patch).result == Failure("Failed to update admin")
    ensures !HasEmail(t, email) ==>
      ChangePasswordStep(Admin, crypto, t, email, password, newPassword, salt).result == Failure("Admin not found")
    ensures !HasEmail(t, email) ==>
      ResetByOtpStep(Admin, crypto, t, email, None, newPassword, salt).result == Failure("No modifications were made")
    ensures DeleteStep(Admin, t, id).result ==
      if id in t then Success("Admin deleted successfully with id: " + Text.NatToString(id))
      else Failure("No admin found to delete with this id: " + Text.NatToString(id))
  {
  }

  /** The store's invariant on its parts: well-formed documents under
      identifiers below `nextId`, and an e-mail index that agrees with them
      both ways. */
  ghost predicate IndexAgrees(kind: Kind, t: Table, index: map<string, Id>, nextId: Id)
    ensures IndexAgrees(kind, t, index, nextId) ==> UniqueEmails(t) && WellFormed(kind, t) && nextId !in t
  {
    && WellFormed(kind, t)
    && (forall i :: i in t ==> i < nextId)
    && (forall i :: i in t ==> t[i].email in index && index[t[i].email] == i)
    && (forall e :: e in index ==> index[e] in t && t[index[e]].email == e)
  }

  /** Saving a new record with a fresh e-mail under `nextId` keeps the
      index in step. */
  lemma InsertKeepsIndex(kind: Kind, t: Table, index: map<string, Id>, nextId: Id, user: Account)
    requires IndexAgrees(kind, t, index, nextId)
    requires user.id == nextId && Conforms(kind, user) && user.email !in index
    ensures IndexAgrees(kind, t[nextId := user], index[user.email := nextId], nextId + 1)
  {
  }

  class AccountStore {
    const kind: Kind
    const crypto: Crypto
    /** The documents of the collection. */
    var table: Table
    /** The unique index on `email`. */
    var emailIndex: map<string, Id>
    /** The next identifier the store will assign. */
    var nextId: Id

    ghost predicate Valid()
      reads this
      ensures Valid() ==> UniqueEmails(table) && WellFormed(kind, table) && nextId !in table
    {
      IndexAgrees(kind, table, emailIndex, nextId)
    }

    constructor (kind: Kind, crypto: Crypto)
      ensures Valid() && this.kind == kind && this.crypto == crypto && table == map[]
    {
      this.kind := kind;
      this.crypto := crypto;
      table := map[];
      emailIndex := map[];
      nextId := 0;
    }

    /** The index answers `findOne({ email })`. */
    lemma IndexFinds(email: string)
      requires Valid()
      ensures email in emailIndex <==> HasEmail(table, email)
      ensures email in emailIndex ==> WithEmail(table, email) == emailIndex[email]
    {
      if email in emailIndex {
        assert table[emailIndex[email]].email == email;
      }
    }

    method Login(email: string, password: string) returns (r: Result<UserLoginDTO, string>)
      requires Valid()
      ensures r == LoginOutcome(kind, crypto, table, email, password)
    {
      IndexFinds(email);
      if email !in emailIndex {
        return Failure(NotFoundMessage(kind));
      }
      var user := table[emailIndex[email]];
      var passwordMatch := crypto.matches(password, user.password);
      if !passwordMatch {
        return Failure(INVALID_PASSWORD);
      }
      var token := crypto.sign(user.email);
      r := Success(NewUserLoginDTO(user, token));
    }

    method Register(name: string, email: string, password: string, salt: Salt, now: int)
      returns (r: Result<UserRegisterDTO, string>)
      requires Valid()
      modifies this
      ensures Valid()
      ensures var s := RegisterStep(kind, crypto, old(table), old(nextId), name, email, password, salt, now);
              r == s.result && table == s.table
      ensures r.Failure? ==> unchanged(this)
    {
      IndexFinds(email);
      if email in emailIndex {
        return Failure(AlreadyExistsMessage(kind));
      }
      var hashedPassword := crypto.hash(password, salt);
      var errors := ValidationErrors(name, email);
      if errors != [] {
        return Failure(ValidationMessage(kind, errors));
      }
      var user := NewAccount(kind, nextId, name, email, hashedPassword, now);
      InsertKeepsIndex(kind, table, emailIndex, nextId, user);
      table := table[nextId := user];
      emailIndex := emailIndex[email := nextId];
      nextId := nextId + 1;
      var token := crypto.sign(user.email);
      r := Success(NewUserRegisterDTO(user, token));
    }

    /** `findOne({ _id: id })`. */
    method FindById(id: Id) returns (r: Option<Account>)
      requires Valid()
      ensures r.Some? <==> id in table
      ensures r.Some? ==> r.value == table[id] && r.value.id == id
    {
      r := if id in table then Some(table[id]) else None;
    }

    method UpdateById(id: Id, updateData: Patch) returns (r: Result<Account, string>)
      requires Valid()
      modifies this
      ensures Valid()
      ensures var s := UpdateStep(kind, old(table), id, updateData); r == s.result && table == s.table
      ensures r.Failure? ==> unchanged(this)
    {
      if id !in table {
        return Failure(UpdateFailedMessage(kind));
      }
      var before := table[id];
      if updateData.email.Some? {
        var e := updateData.email.value;
        IndexFinds(e);
        if e in emailIndex && emailIndex[e] != id {
          return Failure(DuplicateKeyMessage(kind, e));
        }
        assert !HeldByOther(table, id, e);
      }
      var after := ApplySet(kind, before, updateData);
      table := table[id := after];
      emailIndex := (emailIndex - {before.email})[after.email := id];
      r := Success(after);
    }

    /** Overwrites the password of the record holding `email` with `hash`. */
    method SetPasswordOf(email: string, hash: Digest) returns (user: Account)
      requires Valid() && HasEmail(table, email)
      modifies this
      ensures Valid()
      ensures var s := SetPassword(kind, old(table), email, hash); table == s.table && Success(user) == s.result
    {
      IndexFinds(email);
      var id := emailIndex[email];
      user := ApplySet(kind, table[id], NO_CHANGES.(password := Some(hash)));
      ApplyPasswordOnly(kind, table[id], hash);
      table := table[id := user];
    }

    method UpdatePasswordByOTP(email: string, otpError: Option<string>, newPassword: string, salt: Salt)
      returns (r: Result<Account, string>)
      requires Valid()
      requires otpError.Some? ==> otpError.value != ""
      modifies this
      ensures Valid()
      ensures var s := ResetByOtpStep(kind, crypto, old(table), email, otpError, newPassword, salt);
              r == s.result && table == s.table
      ensures r.Failure? ==> unchanged(this)
    {
      if otpError.Some? {
        return Failure(otpError.value);
      }
      var hashedPassword := crypto.hash(newPassword, salt);
      IndexFinds(email);
      if email !in emailIndex {
        return Failure(NO_MODIFICATIONS);
      }
      var updated := SetPasswordOf(email, hashedPassword);
      r := Success(updated);
    }

    method UpdatePasswordByEmail(email: string, oldPassword: string, newPassword: string, salt: Salt)
      returns (r: Result<Account, string>)
      requires Valid()
      modifies this
      ensures Valid()
      ensures var s := ChangePasswordStep(kind, crypto, old(table), email, oldPassword, newPassword, salt);
              r == s.result && table == s.table
      ensures r.Failure? ==> unchanged(this)
    {
      IndexFinds(email);
      if email !in emailIndex {
        return Failure(NotFoundMessage(kind));
      }
      var user := table[emailIndex[email]];
      var passwordMatch := crypto.matches(oldPassword, user.password);
      if !passwordMatch {
        return Failure(INVALID_PASSWORD);
      }
      var hashedPassword := crypto.hash(newPassword, salt);
      var updated := SetPasswordOf(email, hashedPassword);
      r := Success(updated);
    }

    method DeleteById(id: Id) returns (r: Result<string, string>)
      requires Valid()
      modifies this
      ensures Valid()
      ensures var s := DeleteStep(kind, old(table), id); r == s.result && table == s.table
      ensures r.Failure? ==> unchanged(this)
    {
      var deletedCount := if id in table then 1 else 0;
      if deletedCount == 0 {
        return Failure(NothingDeletedMessage(kind, id));
      }
      emailIndex := emailIndex - {table[id].email};
      table := table - {id};
      r := Success(DeletedMessage(kind, id));
    }
  }
}
