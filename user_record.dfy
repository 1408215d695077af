/**
 * The User document as the auth and employee handlers use it. The User
 * schema itself (models/User.js) is not part of this model, so this record
 * holds only the fields those handlers read or write; `password` is the
 * stored hash that the schema's pre-save hook computes.
 */
module UserRecord {
  import opened Common

  datatype User = User(
    fullName: string,
    email: string,
    password: string,
    phone: Option<string>,
    role: string,
    lastLogin: Option<int>,
    resetPasswordToken: Option<string>,
    resetPasswordExpire: Option<int>)

  /** Some user is registered under `email`. */
  predicate EmailTaken(users: map<Id, User>, email: string) {
    exists id :: id in users && users[id].email == email
  }

  /** No two users share an e-mail address. */
  predicate UniqueEmails(users: map<Id, User>) {
    forall i, j :: i in users && j in users && i != j ==> users[i].email != users[j].email
  }

  /** Every stored e-mail is non-empty and lower-case, and no two are equal. */
  predicate UsersValid(users: map<Id, User>) {
    (forall id :: id in users ==> users[id].email != "" && IsLower(users[id].email))
    && UniqueEmails(users)
  }

  /**
   * Adding a user under a new id keeps the e-mails unique exactly when no
   * stored user has the new user's e-mail.
   */
  lemma InsertKeepsUniqueEmails(users: map<Id, User>, id: Id, u: User)
    requires UniqueEmails(users) && id !in users
    ensures UniqueEmails(users[id := u]) <==> !EmailTaken(users, u.email)
  {
    if EmailTaken(users, u.email) {
      var other :| other in users && users[other].email == u.email;
      assert other != id && users[id := u][other].email == users[id := u][id].email;
    }
  }

  /** Rewriting a user without changing its e-mail keeps the e-mails unique. */
  lemma RewriteKeepsUniqueEmails(users: map<Id, User>, id: Id, u: User)
    requires UniqueEmails(users) && id in users && users[id].email == u.email
    ensures UniqueEmails(users[id := u])
  {
  }
}
