/** `UserRepository`: the Users table, kept as a map from key to record, and
    the six operations on it. */
module Repositories {
  import opened DotNet
  import opened Entities

  const EmptyIdError: Exception := ArgumentException("User ID cannot be empty.", "id")
  const EmptyEmailError: Exception := ArgumentException("User email cannot be empty.", "email")
  const NullCreateError: Exception := ArgumentNullException("User create request cannot be null user")
  const NullUpdateError: Exception := ArgumentNullException("User information cannot be null user")

  /** `SingleOrDefaultAsync` on a query with more than one match. */
  const MoreThanOneMatch: Exception := InvalidOperationException("Sequence contains more than one element.")

  /** `SaveChangesAsync` inserting a key that is already stored. */
  const DuplicateKey: Exception := DbUpdateException("An error occurred while saving the entity changes.")

  /** `SaveChangesAsync` updating a row that is not stored. */
  const MissingRow: Exception := DbUpdateException("The database operation was expected to affect 1 row(s), but actually affected 0 row(s).")

  function NotFoundMessage(id: Guid): string {
    "Data with ID " + GuidToString(id) + " was not found."
  }

  /** The key the store gives a new record: its own id, or the key the store
      generates when the id is `Guid.Empty`. */
  function KeyFor(user: DbUser, generatedId: Guid): Guid {
    if user.id == EmptyGuid then generatedId else user.id
  }

  class UserRepository {
    /** The Users table. */
    var users: map<Guid, DbUser>

    /** Every record is stored under its own, non-empty, id. */
    ghost predicate Valid()
      reads this
    {
      forall id :: id in users ==> users[id].id == id && id != EmptyGuid
    }

    /** The keys of the records whose Email equals `email` exactly. */
    ghost function EmailMatches(email: string): set<Guid>
      reads this
    {
      set id | id in users && users[id].email == email
    }

    constructor (seed: map<Guid, DbUser>)
      requires forall id :: id in seed ==> seed[id].id == id && id != EmptyGuid
      ensures Valid() && users == seed
    {
      users := seed;
    }

    /** `GetUsersAsync`: every stored record, once each (in the order the
        table yields them). */
    method GetUsers() returns (rows: seq<DbUser>)
      requires Valid()
      ensures |rows| == |users|
      ensures forall i :: 0 <= i < |rows| ==> rows[i].id in users && users[rows[i].id] == rows[i]
      ensures forall i, j :: 0 <= i < j < |rows| ==> rows[i].id != rows[j].id
      ensures forall id :: id in users ==> exists i :: 0 <= i < |rows| && rows[i].id == id
    {
      rows := [];
      var remaining := users.Keys;
      while remaining != {}
        invariant remaining <= users.Keys
        invariant |rows| + |remaining| == |users|
        invariant forall i :: 0 <= i < |rows| ==> rows[i].id in users && users[rows[i].id] == rows[i] && rows[i].id !in remaining
        invariant forall i, j :: 0 <= i < j < |rows| ==> rows[i].id != rows[j].id
        invariant forall id :: id in users && id !in remaining ==> exists i :: 0 <= i < |rows| && rows[i].id == id
        decreases |remaining|
      {
        var id :| id in remaining;
        ghost var before := rows;
        rows := rows + [users[id]];
        remaining := remaining - {id};
        assert rows[|rows| - 1].id == id;
        assert forall k :: 0 <= k < |before| ==> rows[k] == before[k];
      }
    }

    /** `GetUserByIdAsync`: an empty id is an argument error; otherwise the
        record stored under the id, or null. */
    method GetUserById(id: Guid) returns (r: Outcome<Option<DbUser>>)
      ensures id == EmptyGuid ==> r == Thrown(EmptyIdError)
      ensures id != EmptyGuid && id in users ==> r == Normal(Some(users[id]))
      ensures id != EmptyGuid && id !in users ==> r == Normal(None)
    {
      if id == EmptyGuid {
        return Thrown(EmptyIdError);
      }
      r := Normal(if id in users then Some(users[id]) else None);
    }

    /** `GetUserByEmailAsync`: an empty email is an argument error; otherwise
        the single record whose Email is exactly `email`, null when there is
        none, and an error when there are several. */
    method GetUserByEmail(email: string) returns (r: Outcome<Option<DbUser>>)
      ensures email == "" ==> r == Thrown(EmptyEmailError)
      ensures email != "" && EmailMatches(email) == {} ==> r == Normal(None)
      ensures email != "" && |EmailMatches(email)| > 1 ==> r == Thrown(MoreThanOneMatch)
      ensures email != "" ==> forall id :: id in EmailMatches(email) && |EmailMatches(email)| == 1 ==> r == Normal(Some(users[id]))
      ensures r.Normal? && r.value.Some? ==> r.value.value in users.Values && r.value.value.email == email
    {
      if email == "" {
        return Thrown(EmptyEmailError);
      }
      var matches := set id | id in users && users[id].email == email;
      assert matches == EmailMatches(email);
      if matches == {} {
        r := Normal(None);
      } else if |matches| == 1 {
        var id :| id in matches;
        SingletonMembers(matches, id);
        r := Normal(Some(users[id]));
      } else {
        r := Thrown(MoreThanOneMatch);
      }
    }

    /** `AddUserAsync`: null is an argument error; otherwise the record is
        inserted under its key and the stored record is returned. Inserting a
        key that is already stored fails and leaves the table as it was. */
    method AddUser(user: Option<DbUser>, generatedId: Guid) returns (r: Outcome<Option<DbUser>>)
      requires Valid()
      requires generatedId != EmptyGuid
      modifies this
      ensures Valid()
      ensures user.None? ==> r == Thrown(NullCreateError) && users == old(users)
      ensures user.Some? && KeyFor(user.value, generatedId) in old(users) ==> r == Thrown(DuplicateKey) && users == old(users)
      ensures user.Some? && KeyFor(user.value, generatedId) !in old(users) ==>
        var stored := user.value.(id := KeyFor(user.value, generatedId));
        users == old(users)[stored.id := stored] && r == Normal(Some(stored))
    {
      if user.None? {
        return Thrown(NullCreateError);
      }
      var key := KeyFor(user.value, generatedId);
      if key in users {
        return Thrown(DuplicateKey);
      }
      var stored := user.value.(id := key);
      users := users[key := stored];
      r := GetUserById(key);
    }

    /** `UpdateUserAsync`: null is an argument error; otherwise the record
        stored under `user.Id` is replaced and the stored record returned.
        Updating a key that is not stored fails and changes nothing. */
    method UpdateUser(user: Option<DbUser>) returns (r: Outcome<Option<DbUser>>)
      requires Valid()
      modifies this
      ensures Valid()
      ensures user.None? ==> r == Thrown(NullUpdateError) && users == old(users)
      ensures user.Some? && user.value.id in old(users) ==>
        users == old(users)[user.value.id := user.value] && r == Normal(Some(user.value))
      ensures user.Some? && user.value.id !in old(users) ==> r == Thrown(MissingRow) && users == old(users)
    {
      if user.None? {
        return Thrown(NullUpdateError);
      }
      var u := user.value;
      if u.id !in users {
        return Thrown(MissingRow);
      }
      users := users[u.id := u];
      r := GetUserById(u.id);
    }

    /** `DeleteUserAsync`: an empty id is an argument error, a missing id is a
        KeyNotFound error; otherwise the record is removed and the result is
        true. It never returns false. */
    method DeleteUser(id: Guid) returns (r: Outcome<bool>)
      requires Valid()
      modifies this
      ensures Valid()
      ensures id == EmptyGuid ==> r == Thrown(EmptyIdError) && users == old(users)
      ensures id != EmptyGuid && id !in old(users) ==> r == Thrown(KeyNotFoundException(NotFoundMessage(id))) && users == old(users)
      ensures id != EmptyGuid && id in old(users) ==> r == Normal(true) && users == old(users) - {id}
      ensures r != Normal(false)
    {
      if id == EmptyGuid {
        return Thrown(EmptyIdError);
      }
      if id !in users {
        return Thrown(KeyNotFoundException(NotFoundMessage(id)));
      }
      users := users - {id};
      r := Normal(true);
    }
  }

  /** A one-element set holds nothing but its element. */
  lemma SingletonMembers<T>(s: set<T>, x: T)
    requires |s| == 1 && x in s
    ensures s == {x}
  {
    assert |s - {x}| == 0;
  }
}
