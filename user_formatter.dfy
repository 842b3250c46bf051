/**
  The user formatters of controller/user/formatter.go: projections of a user
  record onto the shapes returned to clients, which copy the public fields,
  drop the secret ones and optionally attach a token. The record's own shape
  comes from model/user.go: GORM's embedded `gorm.Model` (identity, creation,
  update and soft-deletion time) plus the user's name, email, password hash,
  optional avatar path and optional verification time.
 */
module UserFormatter {
  import opened Common

  /** A `time.Time`, reduced to a comparable instant. */
  datatype Time = Time(seconds: int, nanos: nat)

  /** A user record. */
  datatype User = User(
    id: nat,
    createdAt: Time,
    updatedAt: Time,
    deletedAt: Option<Time>,
    name: string,
    email: string,
    password: string,
    avatarPath: Option<string>,
    verifiedAt: Option<Time>)

  /** `UserFormat`: what clients see of a user. */
  datatype UserFormat = UserFormat(
    id: nat,
    name: string,
    email: string,
    verifiedAt: Option<Time>,
    createdAt: Time,
    updatedAt: Time)

  /** `UserWithTokenFormat`: what clients see of a user, with a token. */
  datatype UserWithTokenFormat = UserWithTokenFormat(
    id: nat,
    name: string,
    email: string,
    token: string,
    verifiedAt: Option<Time>,
    createdAt: Time,
    updatedAt: Time)

  /** `UserFormatter`: the six public fields, copied unchanged. */
  function Format(user: User): (f: UserFormat)
    ensures f.id == user.id && f.name == user.name && f.email == user.email
    ensures f.verifiedAt == user.verifiedAt
    ensures f.createdAt == user.createdAt && f.updatedAt == user.updatedAt
  {
    UserFormat(user.id, user.name, user.email, user.verifiedAt, user.createdAt, user.updatedAt)
  }

  /** `UserWithTokenFormatter`: the same six fields, plus the given token. */
  function FormatWithToken(user: User, token: string): (f: UserWithTokenFormat)
    ensures f.token == token
    ensures f.id == user.id && f.name == user.name && f.email == user.email
    ensures f.verifiedAt == user.verifiedAt
    ensures f.createdAt == user.createdAt && f.updatedAt == user.updatedAt
  {
    UserWithTokenFormat(user.id, user.name, user.email, token, user.verifiedAt, user.createdAt, user.updatedAt)
  }

  /** The token-less shape of a token-carrying one. */
  function WithoutToken(f: UserWithTokenFormat): UserFormat
  {
    UserFormat(f.id, f.name, f.email, f.verifiedAt, f.createdAt, f.updatedAt)
  }

  /**
    The two formatters agree: dropping the token of `FormatWithToken` gives
    `Format`, for every token.
   */
  lemma WithoutTokenIsFormat(user: User, token: string)
    ensures WithoutToken(FormatWithToken(user, token)) == Format(user)
  {
  }

  /**
    No secret reaches the client: two users that differ only in password,
    avatar path or deletion time are formatted identically, and a formatted
    user is the same for every token but for the token itself.
   */
  lemma SecretsNotExposed(u: User, password: string, avatarPath: Option<string>, deletedAt: Option<Time>, t1: string, t2: string)
    ensures Format(u.(password := password, avatarPath := avatarPath, deletedAt := deletedAt)) == Format(u)
    ensures FormatWithToken(u.(password := password, avatarPath := avatarPath, deletedAt := deletedAt), t1)
         == FormatWithToken(u, t1)
    ensures FormatWithToken(u, t1).(token := t2) == FormatWithToken(u, t2)
  {
  }

  /** Formatting loses only the secret fields: a user is determined by its format and its secrets. */
  lemma FormatInjective(u: User, v: User)
    requires u.password == v.password && u.avatarPath == v.avatarPath && u.deletedAt == v.deletedAt
    ensures Format(u) == Format(v) <==> u == v
  {
  }

  /**
    `UserCollectionFormatter`: appends the format of each user in turn, so the
    result has one entry per user, in the same order.
   */
  method FormatCollection(users: seq<User>) returns (values: seq<UserFormat>)
    ensures |values| == |users|
    ensures forall i :: 0 <= i < |users| ==> values[i] == Format(users[i])
    ensures users == [] ==> values == []
  {
    values := [];
    for i := 0 to |users|
      invariant |values| == i
      invariant forall k :: 0 <= k < i ==> values[k] == Format(users[k])
    {
      values := values + [Format(users[i])];
    }
  }
}
