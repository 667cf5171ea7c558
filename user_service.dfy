/**
 * The Spring user service: `createUser` fills in the defaults of a new `User` through its
 * setters and saves it; `authenticateUser` checks a password against the user found by
 * mobile number. The JPA repository behind it is modelled as a sequence of saved rows.
 */
module SpringUsers {
  import opened Wrappers
  import opened Text
  import opened Sequences

  /** What the persistence layer can throw: a `nullable = false` column left null, or a
      single-result query (`findByMobile`) that matches more than one row. */
  datatype RepoError = NotNullViolation | NonUniqueResult

  /** A saved `users` row. `username` and `password` are `nullable = false` columns. */
  datatype UserRow = UserRow(
    id: int,
    username: string,
    password: string,
    fullName: Option<string>,
    mobile: Option<string>,
    currency: Option<string>,
    fingerprintEnabled: Option<bool>,
    isProfileComplete: Option<bool>)

  /** The username `createUser` leaves: a non-empty one is kept; otherwise the full name
      with its spaces turned into underscores, or `user_<millis>` without a full name. */
  function DefaultUsername(username: Option<string>, fullName: Option<string>, millis: int): (r: string)
    ensures username.Some? && username.value != [] ==> r == username.value
    ensures (username.None? || username.value == []) && fullName.Some? ==>
      |r| == |fullName.value| && ' ' !in r && r == ReplaceSpaces(fullName.value)
    ensures (username.None? || username.value == []) && fullName.None? ==>
      r == "user_" + IntToDecimal(millis)
  {
    if username.Some? && username.value != [] then username.value
    else if fullName.Some? then ReplaceSpaces(fullName.value)
    else "user_" + IntToDecimal(millis)
  }

  /** `save` of a row: the row with the same id is replaced, or the row is added at the end. */
  function Upsert(rows: seq<UserRow>, row: UserRow): (r: seq<UserRow>)
    ensures row in r
    ensures (exists i :: 0 <= i < |rows| && rows[i].id == row.id) ==> |r| == |rows|
    ensures (forall i :: 0 <= i < |rows| ==> rows[i].id != row.id) ==> r == rows + [row]
    ensures forall i :: 0 <= i < |rows| && rows[i].id != row.id ==> r[i] == rows[i]
  {
    match FindIndex(rows, (x: UserRow) => x.id == row.id)
    case Some(i) =>
      assert rows[i := row][i] == row;
      rows[i := row]
    case None =>
      assert (rows + [row])[|rows|] == row;
      rows + [row]
  }

  /** `findByMobile`: no row, the one row with that mobile number, or an error when the
      number is shared by several rows. */
  function MobileLookup(rows: seq<UserRow>, mobile: string): (r: Result<Option<UserRow>, RepoError>)
    ensures r == Success(None) <==> forall i :: 0 <= i < |rows| ==> rows[i].mobile != Some(mobile)
    ensures r.Success? && r.value.Some? ==>
      exists i :: 0 <= i < |rows| && rows[i] == r.value.value && rows[i].mobile == Some(mobile) &&
        forall j :: 0 <= j < |rows| && j != i ==> rows[j].mobile != Some(mobile)
    ensures r.Failure? <==>
      exists i, j :: 0 <= i < j < |rows| && rows[i].mobile == Some(mobile) && rows[j].mobile == Some(mobile)
    decreases |rows|
  {
    if rows == [] then Success(None)
    else
      var front := rows[..|rows| - 1];
      var last := rows[|rows| - 1];
      var rest := MobileLookup(front, mobile);
      assert forall i :: 0 <= i < |front| ==> front[i] == rows[i];
      if last.mobile != Some(mobile) then rest
      else
        match rest
        case Success(None) => Success(Some(last))
        case Success(Some(u)) =>
          var i :| 0 <= i < |front| && front[i] == u && front[i].mobile == Some(mobile);
          assert rows[i].mobile == Some(mobile) && rows[|rows| - 1].mobile == Some(mobile);
          Failure(NonUniqueResult)
        case Failure(e) => Failure(e)
  }

  /** A row whose mobile number no other row has is what `findByMobile` finds after it
      has been saved. */
  lemma SavedRowFound(rows: seq<UserRow>, row: UserRow, mobile: string)
    requires row.mobile == Some(mobile)
    requires forall i :: 0 <= i < |rows| ==> rows[i].mobile != Some(mobile)
    ensures MobileLookup(Upsert(rows, row), mobile) == Success(Some(row))
  {
    var s := Upsert(rows, row);
    var k := UpsertPosition(rows, row);
    assert forall j :: 0 <= j < |s| && j != k ==> s[j].mobile != Some(mobile);
    assert s[k].mobile == Some(mobile);
  }

  /** An upsert holds the saved row at one position and old rows everywhere else. */
  lemma UpsertPosition(rows: seq<UserRow>, row: UserRow) returns (k: nat)
    ensures k < |Upsert(rows, row)| && Upsert(rows, row)[k] == row
    ensures forall j :: 0 <= j < |Upsert(rows, row)| && j != k ==> Upsert(rows, row)[j] in rows
  {
    var s := Upsert(rows, row);
    match FindIndex(rows, (x: UserRow) => x.id == row.id)
    case Some(i) =>
      k := i;
      assert forall j :: 0 <= j < |s| && j != k ==> s[j] == rows[j];
    case None =>
      k := |rows|;
      assert forall j :: 0 <= j < |s| && j != k ==> s[j] == rows[j];
  }

  /** The JPA `User` entity as `createUser` receives it: every column may still be null. */
  class UserEntity {
    var id: Option<int>
    var username: Option<string>
    var password: Option<string>
    var fullName: Option<string>
    var mobile: Option<string>
    var currency: Option<string>
    var fingerprintEnabled: Option<bool>
    var isProfileComplete: Option<bool>

    constructor(username: Option<string>, password: Option<string>, fullName: Option<string>,
                mobile: Option<string>, currency: Option<string>,
                fingerprintEnabled: Option<bool>, isProfileComplete: Option<bool>)
      ensures this.id == None && this.username == username && this.password == password
      ensures this.fullName == fullName && this.mobile == mobile && this.currency == currency
      ensures this.fingerprintEnabled == fingerprintEnabled && this.isProfileComplete == isProfileComplete
    {
      this.id := None;
      this.username := username;
      this.password := password;
      this.fullName := fullName;
      this.mobile := mobile;
      this.currency := currency;
      this.fingerprintEnabled := fingerprintEnabled;
      this.isProfileComplete := isProfileComplete;
    }
  }

  /** The `users` table: its rows and the next identity value. */
  class UserRepository {
    var rows: seq<UserRow>
    var nextId: int

    /** Every row's id was handed out before. */
    ghost predicate Valid()
      reads this
    {
      forall i :: 0 <= i < |rows| ==> rows[i].id < nextId
    }

    constructor()
      ensures Valid() && rows == [] && nextId == 1
    {
      rows := [];
      nextId := 1;
    }

    /** `save(user)`: a user without an id gets the next identity value; the row is then
        written under that id. A null `username` or `password` is rejected and nothing is
        written. */
    method Save(user: UserEntity) returns (r: Result<UserRow, RepoError>)
      requires Valid()
      modifies this, user
      ensures Valid()
      ensures old(user.username).None? || old(user.password).None? ==>
        r == Failure(NotNullViolation) && unchanged(this) && unchanged(user)
      ensures old(user.username).Some? && old(user.password).Some? ==>
        r.Success? &&
        r.value == UserRow(r.value.id, old(user.username).value, old(user.password).value,
                           old(user.fullName), old(user.mobile), old(user.currency),
                           old(user.fingerprintEnabled), old(user.isProfileComplete)) &&
        rows == Upsert(old(rows), r.value) &&
        user.id == Some(r.value.id) &&
        (old(user.id).None? ==> r.value.id == old(nextId) && nextId == old(nextId) + 1) &&
        (old(user.id).Some? ==> r.value.id == old(user.id).value && nextId == if r.value.id < old(nextId) then old(nextId) else r.value.id + 1)
      ensures unchanged(user`username, user`password, user`fullName, user`mobile, user`currency,
                        user`fingerprintEnabled, user`isProfileComplete)
    {
      if user.username.None? || user.password.None? {
        return Failure(NotNullViolation);
      }
      var id: int;
      if user.id.None? {
        id := nextId;
        nextId := nextId + 1;
      } else {
        id := user.id.value;
        if id >= nextId {
          nextId := id + 1;
        }
      }
      user.id := Some(id);
      var row := UserRow(id, user.username.value, user.password.value, user.fullName, user.mobile,
                         user.currency, user.fingerprintEnabled, user.isProfileComplete);
      UpsertBelow(rows, row, nextId);
      rows := Upsert(rows, row);
      r := Success(row);
    }
  }

  /** Upserting a row below the identity counter keeps every id below it. */
  lemma {:induction false} UpsertBelow(rows: seq<UserRow>, row: UserRow, bound: int)
    requires forall i :: 0 <= i < |rows| ==> rows[i].id < bound
    requires row.id < bound
    ensures forall i :: 0 <= i < |Upsert(rows, row)| ==> Upsert(rows, row)[i].id < bound
    decreases |rows|
  {
    if rows != [] && rows[0].id != row.id {
      UpsertBelow(rows[1..], row, bound);
    }
  }

  class UserService {
    const repository: UserRepository

    constructor(repository: UserRepository)
      ensures this.repository == repository
    {
      this.repository := repository;
    }

    /** The defaults block of `createUser`: each setter call fills in a column left null
        (or, for the username, empty). */
    static method ApplyDefaults(user: UserEntity, millis: int)
      modifies user
      ensures user.username == Some(DefaultUsername(old(user.username), old(user.fullName), millis))
      ensures user.currency == Some(old(user.currency).GetOr("USD"))
      ensures user.fingerprintEnabled == Some(old(user.fingerprintEnabled).GetOr(false))
      ensures user.isProfileComplete == Some(old(user.isProfileComplete).GetOr(false))
      ensures unchanged(user`id, user`password, user`fullName, user`mobile)
    {
      if user.username.None? || user.username.value == [] {
        if user.fullName.Some? {
          user.username := Some(ReplaceSpaces(user.fullName.value));
        } else {
          user.username := Some("user_" + IntToDecimal(millis));
        }
      }
      if user.currency.None? {
        user.currency := Some("USD");
      }
      if user.fingerprintEnabled.None? {
        user.fingerprintEnabled := Some(false);
      }
      if user.isProfileComplete.None? {
        user.isProfileComplete := Some(false);
      }
    }

    /** `createUser(user)`: the defaults are set on the entity, then it is saved. */
    method CreateUser(user: UserEntity, millis: int) returns (r: Result<UserRow, RepoError>)
      requires repository.Valid()
      modifies user, repository
      ensures repository.Valid()
      ensures user.username == Some(DefaultUsername(old(user.username), old(user.fullName), millis))
      ensures user.currency == Some(old(user.currency).GetOr("USD"))
      ensures user.fingerprintEnabled == Some(old(user.fingerprintEnabled).GetOr(false))
      ensures user.isProfileComplete == Some(old(user.isProfileComplete).GetOr(false))
      ensures unchanged(user`password, user`fullName, user`mobile)
      ensures r.Failure? <==> old(user.password).None?
      ensures r.Failure? ==> unchanged(repository)
      ensures r.Success? ==>
        && r.value == UserRow(r.value.id, DefaultUsername(old(user.username), old(user.fullName), millis),
                              old(user.password).value, old(user.fullName), old(user.mobile),
                              user.currency, user.fingerprintEnabled, user.isProfileComplete)
        && repository.rows == Upsert(old(repository.rows), r.value)
        && user.id == Some(r.value.id)
        && (old(user.id).None? ==> r.value.id == old(repository.nextId) && repository.nextId == old(repository.nextId) + 1)
        && (old(user.id).Some? ==>
              r.value.id == old(user.id).value &&
              repository.nextId == if r.value.id < old(repository.nextId) then old(repository.nextId) else r.value.id + 1)
      ensures r.Success? && old(user.mobile).Some? &&
                (forall i :: 0 <= i < |old(repository.rows)| ==> old(repository.rows)[i].mobile != old(user.mobile))
              ==> AuthenticateUser(old(user.mobile).value, old(user.password)) == Success(true)
    {
      ApplyDefaults(user, millis);
      ghost var before := repository.rows;
      r := repository.Save(user);
      if r.Success? && user.mobile.Some? && forall i :: 0 <= i < |before| ==> before[i].mobile != user.mobile {
        SavedRowFound(before, r.value, user.mobile.value);
      }
    }

    /** `authenticateUser(mobile, password)`: true exactly when one user has that mobile
        number and its password equals the given one; `findByMobile` throws when the
        number is shared. */
    function AuthenticateUser(mobile: string, password: Option<string>): (r: Result<bool, RepoError>)
      reads repository
      ensures (forall i :: 0 <= i < |repository.rows| ==> repository.rows[i].mobile != Some(mobile)) ==>
        r == Success(false)
      ensures r == Success(true) <==>
        exists i :: 0 <= i < |repository.rows| && repository.rows[i].mobile == Some(mobile) &&
          password == Some(repository.rows[i].password) &&
          forall j :: 0 <= j < |repository.rows| && j != i ==> repository.rows[j].mobile != Some(mobile)
      ensures r.Failure? <==>
        exists i, j :: 0 <= i < j < |repository.rows| &&
          repository.rows[i].mobile == Some(mobile) && repository.rows[j].mobile == Some(mobile)
    {
      match MobileLookup(repository.rows, mobile)
      case Failure(e) => Failure(e)
      case Success(None) => Success(false)
      case Success(Some(u)) => Success(password == Some(u.password))
    }
  }
}
