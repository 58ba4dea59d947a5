/** The user handlers: each calls the user store and turns its result into
    a status code, a message and optional data (the `sendResponse`
    envelope). */
module UserController {
  import opened Wrappers
  import opened Schema
  import opened UserDto
  import opened Accounts
  import ObjectIds

  datatype Response<D> = Response(status: int, message: string, data: Option<D>)

  const INVALID_OBJECT_ID: string := "Invalid ObjectId"

  /** The parsed `data` field of an update request. The password is in
      plaintext here; unknown keys are left out (mongoose's strict mode
      drops them from the update). */
  datatype Payload = Payload(
    email: Option<string>,
    name: Option<string>,
    password: Option<string>,
    displayImage: Option<string>,
    coverImage: Option<string>,
    createdAt: Option<int>)

  const EMPTY_PAYLOAD: Payload := Payload(None, None, None, None, None, None)

  /** JavaScript truthiness of an optional string: present and non-empty. */
  predicate Truthy(s: Option<string>) {
    s.Some? && s.value != ""
  }

  /** `const { password, ...additionalData } = data`. */
  function AdditionalData(p: Payload): Patch {
    Patch(p.email, p.name, None, p.displayImage, p.coverImage, p.createdAt)
  }

  /** `Object.keys(additionalData).length > 0`. */
  predicate HasKeys(p: Patch) {
    p != NO_CHANGES
  }

  /** The URLs the upload collaborator returned for one file field, or
      `None` when the request had no files in that field. The collaborator
      returns one URL per file, so a present field has at least one. */
  predicate UploadShape(urls: Option<seq<string>>) {
    urls.Some? ==> |urls.value| > 0
  }

  function FirstUrl(urls: Option<seq<string>>): Option<string>
    requires UploadShape(urls)
  {
    if urls.Some? then Some(urls.value[0]) else None
  }

  /** The update payload `updateUserById` sends, path by path: a path the
      request's data names wins; otherwise the display image is the first
      URL of the `single` upload and the cover image the first URL of the
      `multiple` upload, when those files were sent; the password appears
      only as the hash of a non-empty plaintext; absent data counts as `{}`. */
  function UpdateData(single: Option<seq<string>>, multiple: Option<seq<string>>,
                      data: Option<Payload>, crypto: Crypto, salt: Salt): Patch
    requires UploadShape(single) && UploadShape(multiple)
  {
    var p := data.GetOr(EMPTY_PAYLOAD);
    Patch(
      email := p.email,
      name := p.name,
      password := if Truthy(p.password) then Some(crypto.hash(p.password.value, salt)) else None,
      displayImage := if p.displayImage.Some? then p.displayImage else FirstUrl(single),
      coverImage := if p.coverImage.Some? then p.coverImage else FirstUrl(multiple),
      createdAt := p.createdAt)
  }

  /** Builds `updateData` by the handler's successive merges. */
  method BuildUpdateData(single: Option<seq<string>>, multiple: Option<seq<string>>,
                         data: Option<Payload>, crypto: Crypto, salt: Salt) returns (updateData: Patch)
    requires UploadShape(single) && UploadShape(multiple)
    ensures updateData == UpdateData(single, multiple, data, crypto, salt)
  {
    var payload := if data.Some? then data.value else EMPTY_PAYLOAD;
    var password := payload.password;
    var additionalData := AdditionalData(payload);
    updateData := NO_CHANGES;
    if single.Some? {
      var displayImage := single.value[0];
      updateData := Spread(updateData, NO_CHANGES.(displayImage := Some(displayImage)));
    }
    if multiple.Some? {
      var coverImage := multiple.value[0];
      updateData := Spread(updateData, NO_CHANGES.(coverImage := Some(coverImage)));
    }
    if Truthy(password) {
      var hashedPassword := crypto.hash(password.value, salt);
      updateData := Spread(updateData, NO_CHANGES.(password := Some(hashedPassword)));
    }
    if HasKeys(additionalData) {
      updateData := Spread(updateData, additionalData);
    }
  }

  /** The plaintext password never reaches the store: the update carries
      either its hash or, when it is empty or absent, no password at all. */
  lemma UpdateDataHashesPassword(single: Option<seq<string>>, multiple: Option<seq<string>>,
                                 data: Option<Payload>, crypto: Crypto, salt: Salt)
    requires UploadShape(single) && UploadShape(multiple)
    ensures var u := UpdateData(single, multiple, data, crypto, salt);
            && (u.password.Some? <==> data.Some? && Truthy(data.value.password))
            && (u.password.Some? ==> u.password.value == crypto.hash(data.value.password.value, salt))
  {
  }

  method LoginUser(users: AccountStore, email: string, password: string) returns (resp: Response<UserLoginDTO>)
    requires users.Valid() && users.kind == User
    ensures !HasEmail(users.table, email) ==> resp == Response(404, "User not found", None)
    ensures HasEmail(users.table, email) ==>
      var user := users.table[WithEmail(users.table, email)];
      resp == if users.crypto.matches(password, user.password)
              then Response(200, "User logged in successfully", Some(NewUserLoginDTO(user, users.crypto.sign(email))))
              else Response(401, INVALID_PASSWORD, None)
  {
    var result := users.Login(email, password);
    if result.Failure? {
      var status := 401;
      if result.error == "User not found" {
        status := 404;
      }
      return Response(status, result.error, None);
    }
    resp := Response(200, "User logged in successfully", Some(result.value));
  }

  method RegisterUser(users: AccountStore, name: string, email: string, password: string, salt: Salt, now: int)
    returns (resp: Response<UserRegisterDTO>)
    requires users.Valid() && users.kind == User
    modifies users
    ensures users.Valid()
    ensures var s := RegisterStep(User, users.crypto, old(users.table), old(users.nextId), name, email, password, salt, now);
            && users.table == s.table
            && (s.result.Failure? ==> resp == Response(401, s.result.error, None))
            && (s.result.Success? ==> resp == Response(201, "User registered successfully", Some(s.result.value)))
  {
    var result := users.Register(name, email, password, salt, now);
    if result.Failure? {
      return Response(401, result.error, None);
    }
    resp := Response(201, "User registered successfully", Some(result.value));
  }

  method GetOneUser(users: AccountStore, id: Id, idWellFormed: bool) returns (resp: Response<Account>)
    requires users.Valid()
    ensures !idWellFormed ==> resp == Response(400, INVALID_OBJECT_ID, None)
    ensures idWellFormed && id !in users.table ==> resp == Response(404, "User not found", None)
    ensures idWellFormed && id in users.table ==> resp == Response(200, "User retrieved successfully", Some(users.table[id]))
  {
    if !ObjectIds.ValidObjectId(idWellFormed).valid {
      return Response(400, INVALID_OBJECT_ID, None);
    }
    var user := users.FindById(id);
    if user.None? {
      return Response(404, "User not found", None);
    }
    resp := Response(200, "User retrieved successfully", Some(user.value));
  }

  /** Responds 200 with whatever the store returned, its error included. */
  method UpdateUserById(users: AccountStore, id: Id, idWellFormed: bool,
                        single: Option<seq<string>>, multiple: Option<seq<string>>,
                        data: Option<Payload>, salt: Salt) returns (resp: Response<Result<Account, string>>)
    requires users.Valid() && users.kind == User
    requires UploadShape(single) && UploadShape(multiple)
    modifies users
    ensures users.Valid()
    ensures !idWellFormed ==> resp == Response(400, INVALID_OBJECT_ID, None) && unchanged(users)
    ensures idWellFormed ==>
      var s := UpdateStep(User, old(users.table), id, UpdateData(single, multiple, data, users.crypto, salt));
      users.table == s.table && resp == Response(200, "User updated successfully", Some(s.result))
  {
    if !ObjectIds.ValidObjectId(idWellFormed).valid {
      return Response(400, INVALID_OBJECT_ID, None);
    }
    var updateData := BuildUpdateData(single, multiple, data, users.crypto, salt);
    var updatedUser := users.UpdateById(id, updateData);
    resp := Response(200, "User updated successfully", Some(updatedUser));
  }

  method UpdateUserPasswordByOTP(users: AccountStore, email: string, otpError: Option<string>,
                                 newPassword: string, salt: Salt) returns (resp: Response<Account>)
    requires users.Valid() && users.kind == User
    requires otpError.Some? ==> otpError.value != ""
    modifies users
    ensures users.Valid()
    ensures var s := ResetByOtpStep(User, users.crypto, old(users.table), email, otpError, newPassword, salt);
            && users.table == s.table
            && (s.result.Failure? ==> resp == Response(401, s.result.error, None))
            && (s.result.Success? ==> resp == Response(200, "Password updated successfully", None))
  {
    var updatedUser := users.UpdatePasswordByOTP(email, otpError, newPassword, salt);
    if updatedUser.Failure? {
      return Response(401, updatedUser.error, None);
    }
    resp := Response(200, "Password updated successfully", None);
  }

  method UpdateUserPasswordByOldPassword(users: AccountStore, email: string, oldPassword: string,
                                         newPassword: string, salt: Salt) returns (resp: Response<Account>)
    requires users.Valid() && users.kind == User
    modifies users
    ensures users.Valid()
    ensures var s := ChangePasswordStep(User, users.crypto, old(users.table), email, oldPassword, newPassword, salt);
            && users.table == s.table
            && (s.result.Failure? ==> resp == Response(401, s.result.error, None))
            && (s.result.Success? ==> resp == Response(200, "Password updated successfully", Some(s.result.value)))
  {
    var updatedUser := users.UpdatePasswordByEmail(email, oldPassword, newPassword, salt);
    if updatedUser.Failure? {
      return Response(401, updatedUser.error, None);
    }
    resp := Response(200, "Password updated successfully", Some(updatedUser.value));
  }

  method DeleteUserById(users: AccountStore, id: Id, idWellFormed: bool) returns (resp: Response<string>)
    requires users.Valid() && users.kind == User
    modifies users
    ensures users.Valid()
    ensures !idWellFormed ==> resp == Response(400, INVALID_OBJECT_ID, None) && unchanged(users)
    ensures idWellFormed ==>
      && users.table == old(users.table) - {id}
      && resp == if id in old(users.table) then Response(200, DeletedMessage(User, id), None)
                 else Response(404, NothingDeletedMessage(User, id), None)
  {
    if !ObjectIds.ValidObjectId(idWellFormed).valid {
      return Response(400, INVALID_OBJECT_ID, None);
    }
    var deletionResult := users.DeleteById(id);
    if deletionResult.Failure? {
      return Response(404, deletionResult.error, None);
    }
    resp := Response(200, deletionResult.value, None);
  }
}
