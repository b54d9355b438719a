/**
 * The `/payments` endpoints' guards and error mapping
 * (http/PaymentsController.java). Request bodies arrive as decoded JSON
 * objects.
 */
module PaymentsController {
  import opened Wrappers
  import opened Http
  import opened Json
  import opened TokenModel
  import opened StripeTransactionModel
  import opened Repositories
  import PaymentService

  const MissingPlanId := "Falta el ID del plan"
  const PrepayFailed := "Error al preparar el pago: "
  const MissingTransactionId := "Falta el ID de transacción"
  const UnknownTransaction := "Transacción no registrada en el sistema"
  const ConfirmFailed := "Error en la confirmación: "
  const Confirmed := "Operación confirmada y registrada en el historial"

  /** `prepay`: 400 without a plan id, before the service is asked; status
      failures of the service pass through and the rest become 400. */
  method Prepay(db: Database, info: JsonObject, create: SubscriptionPlanCall, freshId: Uuid)
      returns (r: Result<StripeTransaction, Failure>)
    requires db.TransactionsKeyed()
    requires freshId !in db.transactions
    modifies db`transactions
    ensures db.TransactionsKeyed()
    ensures r.Err? ==> r.error.StatusFailure? && db.transactions == old(db.transactions)
    ensures GetString(info, "planId").None? ==> r == Err(StatusFailure(BadRequest, MissingPlanId))
    ensures var planId := GetString(info, "planId");
            planId.Some? && planId.value !in db.plans ==>
              r == Err(StatusFailure(NotFound, PaymentService.PlanNotFound))
    ensures var planId := GetString(info, "planId");
            planId.Some? && planId.value in db.plans && create(db.plans[planId.value]).Threw? ==>
              r == Err(StatusFailure(BadRequest, PrepayFailed + create(db.plans[planId.value]).message))
    ensures var planId := GetString(info, "planId");
            r.Ok? <==> planId.Some? && planId.value in db.plans && create(db.plans[planId.value]).Returned?
    ensures r.Ok? ==> && GetString(info, "planId").Some? && fresh(r.value) && r.value.id == freshId
                      && db.transactions == old(db.transactions)[freshId := r.value]
                      && r.value.data == Some(create(db.plans[GetString(info, "planId").value]).intent.json)
                      && r.value.GetUser().None?
  {
    var planId := GetString(info, "planId");
    if planId.None? {
      return Err(StatusFailure(BadRequest, MissingPlanId));
    }
    var st := PaymentService.Prepay(db, planId.value, create, freshId);
    if st.Err? {
      return Err(Translate(st.error, BadRequest, PrepayFailed));
    }
    return Ok(st.value);
  }

  /** The provider's `create` call, as seen by the controller. */
  type SubscriptionPlanCall = Records.SubscriptionPlan -> PaymentService.ProviderCall

  /** The one stored row `confirm` may update: the transaction its request
      names, when that id is a string of the table. */
  function ConfirmFrame(db: Database, finalData: JsonObject): (f: set<StripeTransaction>)
    reads db
    ensures |f| <= 1
    ensures forall t | t in f :: t in db.transactions.Values
  {
    var id := CastString(finalData, "transactionId");
    if id.Ok? && id.value.Some? && id.value.value in db.transactions
    then {db.transactions[id.value.value]} else {}
  }

  /** `confirm`: 400 without a transaction id and 404 for an unknown one,
      both before the provider is asked; then the service's verdict, with
      its plain exceptions turned into 400. */
  method Confirm(db: Database, finalData: JsonObject, retrieve: string -> PaymentService.ProviderCall)
      returns (r: Result<map<string, string>, Failure>)
    requires db.Valid() && db.TransactionsKeyed()
    modifies db`transactions, ConfirmFrame(db, finalData)`data, ConfirmFrame(db, finalData)`email
    ensures db.Valid() && db.TransactionsKeyed()
    ensures r.Err? ==> r.error.StatusFailure?
    ensures CastString(finalData, "transactionId").Err? || CastString(finalData, "token").Err? ==>
              && r == Err(StatusFailure(BadRequest, ConfirmFailed)) && db.transactions == old(db.transactions)
              && forall t | t in old(db.transactions.Values) :: t.data == old(t.data) && t.email == old(t.email)
    ensures CastString(finalData, "transactionId") == Ok(None) && CastString(finalData, "token").Ok? ==>
              && r == Err(StatusFailure(BadRequest, MissingTransactionId)) && db.transactions == old(db.transactions)
              && forall t | t in old(db.transactions.Values) :: t.data == old(t.data) && t.email == old(t.email)
    ensures var id := CastString(finalData, "transactionId");
            id.Ok? && id.value.Some? && CastString(finalData, "token").Ok?
            && id.value.value !in old(db.transactions) ==>
              && r == Err(StatusFailure(NotFound, UnknownTransaction)) && db.transactions == old(db.transactions)
              && forall t | t in old(db.transactions.Values) :: t.data == old(t.data) && t.email == old(t.email)
    ensures var id := CastString(finalData, "transactionId");
            var userToken := CastString(finalData, "token");
            id.Ok? && id.value.Some? && userToken.Ok? && id.value.value in old(db.transactions) ==>
              var v := PaymentService.Verdict(old(db.transactions[id.value.value].GetStripePaymentIntentId()),
                                              retrieve, PaymentService.ResolveEmail(db, userToken.value));
              && (v.Err? ==> && r == Err(Translate(v.error, BadRequest, ConfirmFailed))
                             && db.transactions == old(db.transactions)
                             && forall t | t in old(db.transactions.Values) :: t.data == old(t.data) && t.email == old(t.email))
              && (forall t | t in old(db.transactions.Values) && t != old(db.transactions[id.value.value]) ::
                    t.data == old(t.data) && t.email == old(t.email))
              && (v.Ok? && v.value.email !in db.users ==>
                    r == Err(StatusFailure(NotFound, PaymentService.UserNotFound)))
              && (r.Ok? <==> v.Ok? && v.value.email in db.users)
              && (v.Ok? ==> && db.transactions == old(db.transactions)
                            && db.transactions[id.value.value].data == Some(v.value.intent.json)
                            && db.transactions[id.value.value].GetUser() == Some(v.value.email))
    ensures r.Ok? ==> && CastString(finalData, "transactionId").Ok?
                      && CastString(finalData, "transactionId").value.Some?
                      && CastString(finalData, "transactionId").value.value in db.transactions
                      && var tx := db.transactions[CastString(finalData, "transactionId").value.value];
                      && tx.GetUser().Some? && tx.GetUser().value in db.users
                      && r.value == map["status" := "succeeded", "email" := tx.GetUser().value,
                                        "message" := Confirmed]
  {
    var transactionId := CastString(finalData, "transactionId");
    assert ConfirmFailed + Message(ClassCast) == ConfirmFailed;
    if transactionId.Err? {
      return Err(Translate(transactionId.error, BadRequest, ConfirmFailed));
    }
    var userToken := CastString(finalData, "token");
    if userToken.Err? {
      return Err(Translate(userToken.error, BadRequest, ConfirmFailed));
    }
    if transactionId.value.None? {
      return Err(StatusFailure(BadRequest, MissingTransactionId));
    }
    var transaction := PaymentService.FindTransaction(db, transactionId.value.value);
    if transaction.None? {
      return Err(StatusFailure(NotFound, UnknownTransaction));
    }
    var tx := transaction.value;
    var user := PaymentService.ConfirmTransaction(db, tx, userToken.value, retrieve);
    if user.Err? {
      return Err(Translate(user.error, BadRequest, ConfirmFailed));
    }
    return Ok(map["status" := "succeeded", "email" := user.value.email, "message" := Confirmed]);
  }
}
