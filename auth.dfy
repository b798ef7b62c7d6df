/** The in-memory user registry: a list of users with distinct usernames,
    and the user currently logged in. Each change to the list is also saved
    to the store; that save is not modelled. */
module Auth {
  import opened Model

  const DefaultAdminName := "admin"

  /** No two users in `us` share a username. */
  ghost predicate UniqueUsernames(us: seq<User>)
    reads us
  {
    forall i, j :: 0 <= i < j < |us| ==> us[i].username != us[j].username
  }

  predicate CredentialsMatch(u: User, username: string, password: string)
    reads u
  {
    u.username == username && u.password == password
  }

  /** Index `i` holds the first user of `us` with the given username. */
  ghost predicate FirstNamed(us: seq<User>, i: int, username: string)
    reads us
  {
    0 <= i < |us| && us[i].username == username
    && forall j :: 0 <= j < i ==> us[j].username != username
  }

  /** Index `i` holds the first user of `us` with the given username and password. */
  ghost predicate FirstWithCredentials(us: seq<User>, i: int, username: string, password: string)
    reads us
  {
    0 <= i < |us| && CredentialsMatch(us[i], username, password)
    && forall j :: 0 <= j < i ==> !CredentialsMatch(us[j], username, password)
  }

  class AuthService {
    var users: seq<User>
    var currentUser: User?

    ghost predicate Valid()
      reads this, users
    {
      UniqueUsernames(users) && (currentUser == null || currentUser in users)
    }

    /** Starts from the users loaded from the store (`stored`, whose usernames
        are distinct since the users table is keyed by username) and adds the
        default administrator when no user is named "admin". */
    constructor (stored: seq<User>)
      requires UniqueUsernames(stored)
      ensures Valid() && currentUser == null
      ensures exists i :: 0 <= i < |users| && users[i].username == DefaultAdminName
      ensures (exists i :: 0 <= i < |stored| && stored[i].username == DefaultAdminName) ==> users == stored
      ensures (forall i :: 0 <= i < |stored| ==> stored[i].username != DefaultAdminName) ==>
                && |users| == |stored| + 1 && users[..|stored|] == stored
                && fresh(users[|stored|]) && users[|stored|].kind == AdminKind && users[|stored|].role == AdminRole
                && users[|stored|].username == DefaultAdminName && users[|stored|].password == "admin123"
                && users[|stored|].fullName == "Administrator" && users[|stored|].email == "admin@flight.com"
    {
      users := stored;
      currentUser := null;
      new;
      var admin := GetUserByUsername(DefaultAdminName);
      if admin == null {
        var added := RegisterAdmin(DefaultAdminName, "admin123", "Administrator", "admin@flight.com");
        assert users[|users| - 1].username == DefaultAdminName;
      }
    }

    /** The first user that has both the username and the password becomes
        the current user; without one, nothing changes and null is returned. */
    method Login(username: string, password: string) returns (u: User?)
      requires Valid()
      modifies this`currentUser
      ensures Valid()
      ensures u == null <==> forall i :: 0 <= i < |users| ==> !CredentialsMatch(users[i], username, password)
      ensures u != null ==> currentUser == u && exists i :: FirstWithCredentials(users, i, username, password) && users[i] == u
      ensures u == null ==> currentUser == old(currentUser)
    {
      var i := 0;
      while i < |users|
        invariant 0 <= i <= |users|
        invariant forall j :: 0 <= j < i ==> !CredentialsMatch(users[j], username, password)
      {
        if CredentialsMatch(users[i], username, password) {
          currentUser := users[i];
          assert FirstWithCredentials(users, i, username, password);
          return users[i];
        }
        i := i + 1;
      }
      return null;
    }

    method Logout()
      requires Valid()
      modifies this`currentUser
      ensures Valid() && currentUser == null
    {
      currentUser := null;
    }

    /** The first user with the username, or null when there is none. */
    method GetUserByUsername(username: string) returns (u: User?)
      ensures u == null <==> forall i :: 0 <= i < |users| ==> users[i].username != username
      ensures u != null ==> exists i :: FirstNamed(users, i, username) && users[i] == u
    {
      var i := 0;
      while i < |users|
        invariant 0 <= i <= |users|
        invariant forall j :: 0 <= j < i ==> users[j].username != username
      {
        if users[i].username == username {
          assert FirstNamed(users, i, username);
          return users[i];
        }
        i := i + 1;
      }
      return null;
    }

    /** Appends a new customer unless the username is taken, in which case
        the list is left as it was and null is returned. */
    method Register(username: string, password: string, fullName: string, email: string) returns (u: User?)
      requires Valid()
      modifies this`users
      ensures Valid()
      ensures u == null <==> exists i :: 0 <= i < |old(users)| && old(users)[i].username == username
      ensures u == null ==> users == old(users)
      ensures u != null ==>
                && fresh(u) && users == old(users) + [u]
                && u.kind == CustomerKind && u.role == CustomerRole && u.bookings == []
                && u.username == username && u.password == password
                && u.fullName == fullName && u.email == email
    {
      var existing := GetUserByUsername(username);
      if existing != null {
        return null;
      }
      u := new User.Customer(username, password, fullName, email);
      users := users + [u];
    }

    method RegisterCustomer(username: string, password: string, name: string, email: string) returns (ok: bool)
      requires Valid()
      modifies this`users
      ensures Valid()
      ensures !ok <==> exists i :: 0 <= i < |old(users)| && old(users)[i].username == username
      ensures !ok ==> users == old(users)
      ensures ok ==> |users| == |old(users)| + 1 && users[..|old(users)|] == old(users)
                     && var u := users[|old(users)|];
                        && fresh(u) && u.kind == CustomerKind && u.role == CustomerRole && u.bookings == []
                        && u.username == username && u.password == password
                        && u.fullName == name && u.email == email
    {
      var u := Register(username, password, name, email);
      ok := u != null;
    }

    /** Appends a new administrator unless the username is taken. */
    method RegisterAdmin(username: string, password: string, name: string, email: string) returns (ok: bool)
      requires Valid()
      modifies this`users
      ensures Valid()
      ensures !ok <==> exists i :: 0 <= i < |old(users)| && old(users)[i].username == username
      ensures !ok ==> users == old(users)
      ensures ok ==>
                && |users| == |old(users)| + 1 && users[..|old(users)|] == old(users)
                && var u := users[|old(users)|];
                && fresh(u) && u.kind == AdminKind && u.role == AdminRole
                && u.username == username && u.password == password
                && u.fullName == name && u.email == email
    {
      var existing := GetUserByUsername(username);
      if existing != null {
        return false;
      }
      var u := new User.Admin(username, password, name, email);
      users := users + [u];
      assert users[..|old(users)|] == old(users);
      ok := true;
    }

    /** Sets the password of the first user with the username and the old
        password; with no such user nothing changes. */
    method ChangePassword(username: string, oldPassword: string, newPassword: string) returns (ok: bool)
      requires Valid()
      modifies users
      ensures Valid()
      ensures ok <==> exists i :: 0 <= i < |users| && old(CredentialsMatch(users[i], username, oldPassword))
      ensures ok ==> exists i :: old(FirstWithCredentials(users, i, username, oldPassword))
                                 && users[i].password == newPassword
                                 && forall j :: 0 <= j < |users| && j != i ==> users[j].password == old(users[j].password)
      ensures !ok ==> forall j :: 0 <= j < |users| ==> users[j].password == old(users[j].password)
      ensures forall j :: 0 <= j < |users| ==>
                && users[j].username == old(users[j].username) && users[j].fullName == old(users[j].fullName)
                && users[j].email == old(users[j].email) && users[j].role == old(users[j].role)
                && users[j].bookings == old(users[j].bookings)
    {
      var i := 0;
      while i < |users|
        invariant 0 <= i <= |users|
        invariant forall j :: 0 <= j < i ==> !CredentialsMatch(users[j], username, oldPassword)
        invariant unchanged(users)
      {
        if CredentialsMatch(users[i], username, oldPassword) {
          assert old(FirstWithCredentials(users, i, username, oldPassword));
          users[i].password := newPassword;
          return true;
        }
        i := i + 1;
      }
      return false;
    }
  }
}
