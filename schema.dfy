/** The account schema shared by the user and the admin collection: the
    record, its defaults, the validation run when a new record is saved, and
    the `$set` partial update. */
module Schema {
  import opened Wrappers
  import EmailFormat
  import Text

  /** Store-assigned record identifier (a MongoDB ObjectId). */
  type Id = nat

  /** Randomness bcrypt draws when it hashes: each hash is salted afresh. */
  type Salt = nat

  /** The two collections; they share this schema except that only users
      have a cover image. */
  datatype Kind = User | Admin

  /** The output of the password hasher, kept apart from `string` so that
      a plaintext password cannot stand in for a hash by accident. The type
      alone does not prove that a stored value came from the hasher; the
      contracts of the operations that store a password say that. */
  datatype Digest = Digest(text: string)

  /** The collaborators the account operations call and this model does not
      look into: bcrypt's `hashPassword` and `comparePasswords`, and the JSON
      web-token signer `generateToken`, which signs an e-mail claim. */
  datatype Crypto = Crypto(
    hash: (string, Salt) -> Digest,
    matches: (string, Digest) -> bool,
    sign: string -> string)

  const PLACEHOLDER_IMAGE: string := "https://via.placeholder.com/150"

  /** A stored document. `coverImage` is `None` exactly for admins, whose
      schema has no such path. */
  datatype Account = Account(
    id: Id,
    email: string,
    name: string,
    password: Digest,
    displayImage: string,
    coverImage: Option<string>,
    createdAt: int)

  /** The record has the paths its collection's schema declares. */
  predicate Conforms(kind: Kind, a: Account) {
    a.coverImage.Some? <==> kind == User
  }

  function ModelName(kind: Kind): string {
    match kind
    case User => "User"
    case Admin => "Admin"
  }

  /** A new document: the given fields, both images defaulted to the
      placeholder (only the display image for admins), and the creation
      time taken from the clock. */
  function NewAccount(kind: Kind, id: Id, name: string, email: string, password: Digest, createdAt: int): (a: Account)
    ensures Conforms(kind, a)
    ensures a.id == id && a.name == name && a.email == email && a.password == password && a.createdAt == createdAt
    ensures a.displayImage == PLACEHOLDER_IMAGE && (kind == User ==> a.coverImage == Some(PLACEHOLDER_IMAGE))
  {
    Account(id, email, name, password, PLACEHOLDER_IMAGE,
      if kind == User then Some(PLACEHOLDER_IMAGE) else None, createdAt)
  }

  /** The per-path messages of the validation that `save` runs: `email` and
      `name` are required (an empty string counts as missing) and `email`
      must pass the regular expression. `password` is required too; it is
      set to the hasher's output before `save`, and the model does not look
      into that output, so the check on it is not modelled. */
  function ValidationErrors(name: string, email: string): (errors: seq<string>)
    ensures errors == [] <==> name != "" && EmailFormat.IsValidEmail(email)
    ensures |errors| <= 2
  {
    (if email == "" then ["email: Path `email` is required."]
     else if !EmailFormat.IsValidEmail(email) then ["email: " + email + " is not a valid email address!"]
     else [])
    + (if name == "" then ["name: Path `name` is required."] else [])
  }

  /** The text of the validation error `save` throws. */
  function ValidationMessage(kind: Kind, errors: seq<string>): string {
    ModelName(kind) + " validation failed: " + Text.JoinWith(errors, ", ")
  }

  /** An update document for `$set`: `Some` for each path it names. */
  datatype Patch = Patch(
    email: Option<string>,
    name: Option<string>,
    password: Option<Digest>,
    displayImage: Option<string>,
    coverImage: Option<string>,
    createdAt: Option<int>)

  const NO_CHANGES: Patch := Patch(None, None, None, None, None, None)

  /** The object spread `{ ...a, ...b }`: paths `b` names win. */
  function Spread(a: Patch, b: Patch): (r: Patch)
    ensures b == NO_CHANGES ==> r == a
    ensures a == NO_CHANGES ==> r == b
    ensures b.password.Some? ==> r.password == b.password
    ensures b.password.None? ==> r.password == a.password
  {
    Patch(
      if b.email.Some? then b.email else a.email,
      if b.name.Some? then b.name else a.name,
      if b.password.Some? then b.password else a.password,
      if b.displayImage.Some? then b.displayImage else a.displayImage,
      if b.coverImage.Some? then b.coverImage else a.coverImage,
      if b.createdAt.Some? then b.createdAt else a.createdAt)
  }

  /** `$set`: every path the patch names takes the patch's value, every other
      path keeps its value. Under the admin schema `coverImage` is not a
      path, and mongoose's strict mode drops it from the update. */
  function ApplySet(kind: Kind, a: Account, p: Patch): (r: Account)
    ensures r.id == a.id
    ensures Conforms(kind, a) ==> Conforms(kind, r)
  {
    a.(email := p.email.GetOr(a.email),
       name := p.name.GetOr(a.name),
       password := p.password.GetOr(a.password),
       displayImage := p.displayImage.GetOr(a.displayImage),
       coverImage := if kind == User && p.coverImage.Some? then p.coverImage else a.coverImage,
       createdAt := p.createdAt.GetOr(a.createdAt))
  }

  /** A patch that names no path changes nothing. */
  lemma ApplyNoChanges(kind: Kind, a: Account)
    ensures ApplySet(kind, a, NO_CHANGES) == a
  {
  }

  /** Applying the same `$set` again changes nothing more. */
  lemma ApplySetIdempotent(kind: Kind, a: Account, p: Patch)
    ensures ApplySet(kind, ApplySet(kind, a, p), p) == ApplySet(kind, a, p)
  {
  }

  /** Two successive `$set`s are one `$set` of the spread of their patches. */
  lemma ApplySetSpread(kind: Kind, a: Account, p: Patch, q: Patch)
    ensures ApplySet(kind, ApplySet(kind, a, p), q) == ApplySet(kind, a, Spread(p, q))
  {
  }

  /** A `$set` of the password alone changes the password and nothing else. */
  lemma ApplyPasswordOnly(kind: Kind, a: Account, h: Digest)
    ensures ApplySet(kind, a, NO_CHANGES.(password := Some(h))) == a.(password := h)
  {
  }

  /** The admin schema has no cover image: a new admin has none, and no
      update gives it one. */
  lemma AdminHasNoCoverImage(id: Id, name: string, email: string, h: Digest, createdAt: int, a: Account, p: Patch)
    ensures NewAccount(Admin, id, name, email, h, createdAt).coverImage == None
    ensures NewAccount(Admin, id, name, email, h, createdAt).displayImage == PLACEHOLDER_IMAGE
    ensures ApplySet(Admin, a, p).coverImage == a.coverImage
  {
  }
}
