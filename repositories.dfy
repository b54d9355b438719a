/**
 * The five tables behind the Spring Data repositories of the dao package, held in
 * memory. Rows of mutable entities are the entity objects themselves, so a
 * user's creation token and the token table's entry for its id are one object,
 * as in the JPA persistence context.
 */
module Repositories {
  import opened Wrappers
  import opened Records
  import opened TokenModel
  import opened UserModel
  import opened StripeTransactionModel

  class Database {
    /** UserDao, keyed by e-mail. */
    var users: map<string, User>
    /** TokenDao, keyed by token id. */
    var tokens: map<string, Token>
    /** SubscriptionPlanDao, keyed by plan code. */
    var plans: map<string, SubscriptionPlan>
    /** StripeTransactionDao, keyed by transaction id. */
    var transactions: map<string, StripeTransaction>
    /** TrackDao: the append-only history. */
    var tracks: seq<Track>

    /** An empty schema. */
    constructor ()
      ensures Valid() && TransactionsKeyed()
      ensures users == map[] && tokens == map[] && plans == map[]
      ensures transactions == map[] && tracks == []
    {
      users, tokens, plans, transactions, tracks := map[], map[], map[], map[], [];
    }

    /** Primary keys agree with the rows, and every creation token is a row of
        the token table owned by exactly one user. */
    ghost predicate Valid()
      reads this, users.Values, tokens.Values
    {
      && (forall e | e in users :: users[e].email == e)
      && (forall id | id in tokens :: tokens[id].id == id)
      && (forall e | e in users && users[e].creationToken != null ::
            && users[e].creationToken in tokens.Values
            && users[e].creationToken.id in tokens
            && tokens[users[e].creationToken.id] == users[e].creationToken)
      && (forall e, e' | e in users && e' in users && e != e' ::
            users[e].creationToken != null ==> users[e].creationToken != users[e'].creationToken)
      && PlansKeyed()
    }

    /** Each plan is stored under its own code. */
    predicate PlansKeyed()
      reads this
    {
      forall id | id in plans :: plans[id].id == id
    }

    /** Each transaction is stored under its own id. */
    ghost predicate TransactionsKeyed()
      reads this, transactions.Values
    {
      forall id | id in transactions :: transactions[id].id == id
    }

    /** The creation token of the user stored under `email`, as a frame. */
    function CreationTokenFrame(email: string): set<Token>
      reads this, users.Values
    {
      if email in users && users[email].creationToken != null then {users[email].creationToken} else {}
    }

    predicate OwnsToken(email: string, tokenId: string)
      requires Valid()
      reads this, users.Values, tokens.Values
      requires email in users
    {
      users[email].creationToken != null && users[email].creationToken.id == tokenId
    }

    /** A token object of the table is the row of its own id. */
    lemma TokenRow(t: Token)
      requires Valid()
      requires t in tokens.Values
      ensures t.id in tokens && tokens[t.id] == t
    {
      var k :| k in tokens && tokens[k] == t;
    }

    /** The creation tokens of the other users are rows under ids other than
        the creation token of `email`. */
    lemma TokenRowsOfOthers(email: string)
      requires Valid()
      requires email in users
      ensures forall e | e in users && e != email && users[e].creationToken != null ::
                && users[e].creationToken.id in tokens
                && tokens[users[e].creationToken.id] == users[e].creationToken
                && (users[email].creationToken != null ==>
                      users[e].creationToken.id != users[email].creationToken.id)
    {
      forall e | e in users && e != email && users[e].creationToken != null
        ensures users[e].creationToken.id in tokens
        ensures tokens[users[e].creationToken.id] == users[e].creationToken
        ensures users[email].creationToken != null ==>
                  users[e].creationToken.id != users[email].creationToken.id
      {
        TokenRow(users[e].creationToken);
        if users[email].creationToken != null {
          TokenRow(users[email].creationToken);
        }
      }
    }

    /** At most one user owns a given creation-token id. */
    lemma OwnerUnique(e: string, e': string, tokenId: string)
      requires Valid()
      requires e in users && e' in users
      requires OwnsToken(e, tokenId) && OwnsToken(e', tokenId)
      ensures e == e'
    {
      TokenRow(users[e].creationToken);
      TokenRow(users[e'].creationToken);
    }

    /** `UserDao.findByCreationTokenId`, projected on the e-mail. */
    function FindEmailByCreationTokenId(tokenId: string): (r: Option<string>)
      requires Valid()
      reads this, users.Values, tokens.Values
      ensures r.Some? ==> r.value in users && OwnsToken(r.value, tokenId)
      ensures r.None? ==> forall e | e in users :: !OwnsToken(e, tokenId)
    {
      if exists e | e in users :: OwnsToken(e, tokenId) then
        var e :| e in users && OwnsToken(e, tokenId);
        assert forall e' | e' in users && OwnsToken(e', tokenId) :: e' == e by {
          forall e' | e' in users && OwnsToken(e', tokenId) ensures e' == e {
            OwnerUnique(e, e', tokenId);
          }
        }
        Some(e)
      else None
    }

    /** `found` is what `UserDao.findByClientId(clientId)` returns, in the
        database's own order: every user with that client id, once. */
    ghost predicate IsClientIdQuery(clientId: string, found: seq<User>)
      reads this, users.Values
    {
      && (forall i, j | 0 <= i < j < |found| :: found[i] != found[j])
      && (forall i | 0 <= i < |found| :: found[i] in users.Values && found[i].clientId == clientId)
      && (forall e | e in users && users[e].clientId == clientId :: users[e] in found)
    }
  }
}
