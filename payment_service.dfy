/**
 * Payments through the card provider (services/PaymentService.java): the
 * seeded price table, preparing a payment intent, and confirming it against
 * the provider's own record of its status. The provider's SDK is a pair of
 * oracles: `create` for a plan and `retrieve` for an intent id.
 */
module PaymentService {
  import opened Wrappers
  import opened Http
  import opened Json
  import opened JavaText
  import opened Records
  import opened TokenModel
  import opened UserModel
  import opened StripeTransactionModel
  import opened Repositories

  const PlanNotFound := "El plan de pago no existe en la BD"
  const NoIntentId := "No se encuentra el id del PaymentIntent"
  const NotCompleted := "El pago no está completado. Estado: "
  const Unresolved := "No se pudo resolver el usuario."
  const UserNotFound := "Usuario no encontrado"

  /** What the provider reports about an intent: its status (possibly null)
      and its full JSON rendering. */
  datatype PaymentIntent = PaymentIntent(status: Option<string>, json: JsonText)

  /** The result of one SDK call: an intent, or a `StripeException`. */
  datatype ProviderCall = Returned(intent: PaymentIntent) | Threw(message: string)

  /** The three plans written into an empty price table. */
  function SeedPlans(): (m: map<string, SubscriptionPlan>)
    ensures m.Keys == {"SONG", "MONTHLY", "ANNUAL"}
    ensures forall id | id in m :: m[id].id == id
  {
    map["SONG" := SubscriptionPlan("SONG", 1.0, "Pago por canción única"),
        "MONTHLY" := SubscriptionPlan("MONTHLY", 10.0, "Suscripción Mensual"),
        "ANNUAL" := SubscriptionPlan("ANNUAL", 15.0, "Suscripción Anual")]
  }

  /** The price table seeding of `initStripe`: only an empty table is filled. */
  method InitStripe(db: Database)
    requires db.Valid()
    modifies db`plans
    ensures db.Valid()
    ensures old(db.plans) == map[] ==> db.plans == SeedPlans()
    ensures old(db.plans) != map[] ==> db.plans == old(db.plans)
  {
    if |db.plans| == 0 {
      db.plans := SeedPlans();
    }
  }

  /** `getAvailablePlans`: every stored plan. */
  function AvailablePlans(db: Database): (ps: set<SubscriptionPlan>)
    requires db.PlansKeyed()
    reads db
    ensures forall p :: p in ps <==> p.id in db.plans && db.plans[p.id] == p
  {
    db.plans.Values
  }

  /** `prepay`: an intent for an existing plan, recorded as a new transaction
      that holds the provider's payload and no e-mail yet. */
  method Prepay(db: Database, planId: string, create: SubscriptionPlan -> ProviderCall, freshId: Uuid)
      returns (r: Result<StripeTransaction, Failure>)
    requires db.TransactionsKeyed()
    requires freshId !in db.transactions
    modifies db`transactions
    ensures db.TransactionsKeyed()
    ensures planId !in db.plans ==> r == Err(StatusFailure(NotFound, PlanNotFound))
    ensures planId in db.plans && create(db.plans[planId]).Threw? ==>
              r == Err(ProviderFailure(create(db.plans[planId]).message))
    ensures r.Ok? <==> planId in db.plans && create(db.plans[planId]).Returned?
    ensures r.Err? ==> db.transactions == old(db.transactions)
    ensures r.Ok? ==> && fresh(r.value) && r.value.id == freshId
                      && r.value.data == Some(create(db.plans[planId]).intent.json)
                      && r.value.GetUser().None?
                      && db.transactions == old(db.transactions)[freshId := r.value]
  {
    if planId !in db.plans {
      return Err(StatusFailure(NotFound, PlanNotFound));
    }
    var plan := db.plans[planId];
    var call := create(plan);
    if call.Threw? {
      return Err(ProviderFailure(call.message));
    }
    var st := new StripeTransaction(freshId);
    st.SetData(call.intent.json);
    db.transactions := db.transactions[freshId := st];
    return Ok(st);
  }

  /** The provider's two statuses of a paid intent, in any letter case. */
  predicate IsPaidStatus(status: Option<string>) {
    status.Some? && (EqualsIgnoreCase("succeeded", status.value)
                     || EqualsIgnoreCase("requires_capture", status.value))
  }

  /** The acceptance test does not depend on letter case. */
  lemma PaidStatusIgnoresCase(a: string, b: string)
    requires EqualsIgnoreCase(a, b)
    ensures IsPaidStatus(Some(a)) <==> IsPaidStatus(Some(b))
  {
  }

  /** The acceptance test, for every status: folded to lower case, the
      status is one of the provider's two paid states. */
  lemma PaidStatusCharacterised(status: Option<string>)
    ensures IsPaidStatus(status) <==>
              status.Some? && (LowerAll(status.value) == "succeeded"
                               || LowerAll(status.value) == "requires_capture")
  {
    if status.Some? {
      PaidStatesAreLowerCase();
      MatchesIgnoringCase("succeeded", status.value);
      MatchesIgnoringCase("requires_capture", status.value);
    }
  }

  lemma PaidStatesAreLowerCase()
    ensures LowerAll("succeeded") == "succeeded"
    ensures LowerAll("requires_capture") == "requires_capture"
  {
    LowerAllWithoutCapitals("succeeded");
    LowerAllWithoutCapitals("requires_capture");
  }

  /** A lower-case literal is matched by exactly the texts that fold to it. */
  lemma MatchesIgnoringCase(literal: string, s: string)
    requires LowerAll(literal) == literal
    ensures EqualsIgnoreCase(literal, s) <==> LowerAll(s) == literal
  {
    EqualsIgnoreCaseIffLowerEqual(literal, s);
  }

  /** `String.valueOf(status)`, as the rejection message prints it. */
  function StatusText(status: Option<string>): string {
    if status.Some? then status.value else "null"
  }

  /** `resolveEmail`: a text holding '@' already is an e-mail; any other
      text names a creation token, whose owner's e-mail it resolves to. */
  function ResolveEmail(db: Database, tokenOrEmail: Option<string>): (r: Option<string>)
    requires db.Valid()
    reads db, db.users.Values, db.tokens.Values
    ensures tokenOrEmail.None? ==> r.None?
    ensures tokenOrEmail.Some? && '@' in tokenOrEmail.value ==> r == tokenOrEmail
    ensures tokenOrEmail.Some? && '@' !in tokenOrEmail.value ==>
              (r.Some? <==> exists e | e in db.users :: db.OwnsToken(e, tokenOrEmail.value))
    ensures tokenOrEmail.Some? && '@' !in tokenOrEmail.value && r.Some? ==>
              r.value in db.users && db.OwnsToken(r.value, tokenOrEmail.value)
  {
    if tokenOrEmail.None? then None
    else if '@' in tokenOrEmail.value then tokenOrEmail
    else db.FindEmailByCreationTokenId(tokenOrEmail.value)
  }

  /** A payment that passed every check: the provider's latest intent and
      the payer's e-mail. */
  datatype Paid = Paid(intent: PaymentIntent, email: string)

  /** The checks of `confirmTransaction`, in its order: a stored intent id,
      a provider answer, a paid status, a resolvable payer. */
  function Verdict(intentId: Option<string>, retrieve: string -> ProviderCall, payer: Option<string>)
      : (v: Result<Paid, Failure>)
    ensures v == Err(IllegalState(NoIntentId)) <==> MissingOrBlank(intentId)
    ensures !MissingOrBlank(intentId) && retrieve(intentId.value).Threw? ==>
              v == Err(ProviderFailure(retrieve(intentId.value).message))
    ensures !MissingOrBlank(intentId) && retrieve(intentId.value).Returned?
            && !IsPaidStatus(retrieve(intentId.value).intent.status) ==>
              v == Err(IllegalState(NotCompleted + StatusText(retrieve(intentId.value).intent.status)))
    ensures v.Ok? <==> && !MissingOrBlank(intentId) && retrieve(intentId.value).Returned?
                       && IsPaidStatus(retrieve(intentId.value).intent.status)
                       && payer.Some? && '@' in payer.value
    ensures v.Ok? ==> v.value == Paid(retrieve(intentId.value).intent, payer.value)
    ensures v == Err(IllegalArgument(Unresolved)) <==>
              && !MissingOrBlank(intentId) && retrieve(intentId.value).Returned?
              && IsPaidStatus(retrieve(intentId.value).intent.status)
              && (payer.None? || '@' !in payer.value)
  {
    if MissingOrBlank(intentId) then Err(IllegalState(NoIntentId))
    else match retrieve(intentId.value)
      case Threw(m) => Err(ProviderFailure(m))
      case Returned(pi) =>
        if !IsPaidStatus(pi.status) then
          assert (NotCompleted + StatusText(pi.status))[1] != NoIntentId[1];
          Err(IllegalState(NotCompleted + StatusText(pi.status)))
        else if payer.None? || '@' !in payer.value then Err(IllegalArgument(Unresolved))
        else Ok(Paid(pi, payer.value))
  }

  /** `confirmTransaction`: on a failed check nothing is written; once the
      checks pass, the transaction takes the latest payload and the payer's
      e-mail and is saved, and only then is the account looked up, so an
      unknown account is a NOT_FOUND after the transaction was updated. */
  method ConfirmTransaction(db: Database, tx: StripeTransaction, tokenOrEmail: Option<string>,
                            retrieve: string -> ProviderCall)
      returns (r: Result<User, Failure>)
    requires db.Valid() && db.TransactionsKeyed()
    modifies tx`data, tx`email, db`transactions
    ensures db.Valid() && db.TransactionsKeyed()
    ensures var v := Verdict(old(tx.GetStripePaymentIntentId()), retrieve, ResolveEmail(db, tokenOrEmail));
            v.Err? ==> r == Err(v.error) && tx.data == old(tx.data) && tx.email == old(tx.email)
                       && db.transactions == old(db.transactions)
    ensures var v := Verdict(old(tx.GetStripePaymentIntentId()), retrieve, ResolveEmail(db, tokenOrEmail));
            v.Ok? ==> && tx.data == Some(v.value.intent.json) && tx.GetUser() == Some(v.value.email)
                      && db.transactions == old(db.transactions)[tx.id := tx]
                      && (r.Ok? <==> v.value.email in db.users)
                      && (r.Ok? ==> r.value == db.users[v.value.email])
                      && (r.Err? ==> r.error == StatusFailure(NotFound, UserNotFound))
  {
    var paymentIntentId := tx.GetStripePaymentIntentId();
    if paymentIntentId.None? || IsBlank(paymentIntentId.value) {
      return Err(IllegalState(NoIntentId));
    }
    var call := retrieve(paymentIntentId.value);
    if call.Threw? {
      return Err(ProviderFailure(call.message));
    }
    var pi := call.intent;
    if !IsPaidStatus(pi.status) {
      return Err(IllegalState(NotCompleted + StatusText(pi.status)));
    }
    var email := ResolveEmail(db, tokenOrEmail);
    if email.None? || '@' !in email.value {
      return Err(IllegalArgument(Unresolved));
    }
    tx.SetData(pi.json);
    tx.SetUser(email);
    db.transactions := db.transactions[tx.id := tx];
    if email.value !in db.users {
      return Err(StatusFailure(NotFound, UserNotFound));
    }
    return Ok(db.users[email.value]);
  }

  /** `findTransaction`: the stored transaction with that id, or null. */
  function FindTransaction(db: Database, id: string): (r: Option<StripeTransaction>)
    reads db
    ensures r.Some? <==> id in db.transactions
    ensures r.Some? ==> r.value == db.transactions[id]
  {
    if id in db.transactions then Some(db.transactions[id]) else None
  }
}
