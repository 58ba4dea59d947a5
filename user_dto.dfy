/** The projections of an account record sent back to clients. */
module UserDto {
  import opened Schema

  datatype UserLoginDTO = UserLoginDTO(id: Id, name: string, email: string, token: string)
  datatype UserRegisterDTO = UserRegisterDTO(id: Id, name: string, email: string, token: string)
  datatype UserFetchDTO = UserFetchDTO(id: Id, name: string, email: string)
  datatype UserUpdateDTO = UserUpdateDTO(name: string, email: string)
  datatype UserDeleteDTO = UserDeleteDTO(id: Id, name: string, email: string)

  function NewUserLoginDTO(user: Account, token: string): UserLoginDTO {
    UserLoginDTO(user.id, user.name, user.email, token)
  }

  function NewUserRegisterDTO(user: Account, token: string): UserRegisterDTO {
    UserRegisterDTO(user.id, user.name, user.email, token)
  }

  function NewUserFetchDTO(user: Account): UserFetchDTO {
    UserFetchDTO(user.id, user.name, user.email)
  }

  function NewUserUpdateDTO(name: string, email: string): UserUpdateDTO {
    UserUpdateDTO(name, email)
  }

  function NewUserDeleteDTO(user: Account): UserDeleteDTO {
    UserDeleteDTO(user.id, user.name, user.email)
  }

  /** Two records give the same session projection exactly when they agree
      on id, name and e-mail: the projection carries those fields unchanged
      and nothing of the password hash, the images or the creation time. */
  lemma SessionDTOsCarryExactly(u: Account, v: Account, token: string)
    ensures NewUserLoginDTO(u, token) == NewUserLoginDTO(v, token) <==> u.id == v.id && u.name == v.name && u.email == v.email
    ensures NewUserRegisterDTO(u, token) == NewUserRegisterDTO(v, token) <==> u.id == v.id && u.name == v.name && u.email == v.email
    ensures NewUserLoginDTO(u, token) == UserLoginDTO(u.id, u.name, u.email, token)
    ensures NewUserRegisterDTO(u, token) == UserRegisterDTO(u.id, u.name, u.email, token)
  {
  }

  /** The fetch and delete projections carry exactly id, name and e-mail. */
  lemma PublicDTOsCarryExactly(u: Account, v: Account)
    ensures NewUserFetchDTO(u) == NewUserFetchDTO(v) <==> u.id == v.id && u.name == v.name && u.email == v.email
    ensures NewUserDeleteDTO(u) == NewUserDeleteDTO(v) <==> u.id == v.id && u.name == v.name && u.email == v.email
    ensures NewUserFetchDTO(u) == UserFetchDTO(u.id, u.name, u.email)
    ensures NewUserDeleteDTO(u) == UserDeleteDTO(u.id, u.name, u.email)
  {
  }

  /** The update projection is the given name and e-mail. */
  lemma UpdateDTOCarriesExactly(name: string, email: string)
    ensures NewUserUpdateDTO(name, email) == UserUpdateDTO(name, email)
  {
  }
}
