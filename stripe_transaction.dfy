/**
 * The local record of one payment intent (model/StripeTransaction.java):
 * an id, the provider's JSON payload as last seen, and the paying e-mail.
 */
module StripeTransactionModel {
  import opened Wrappers
  import opened Json
  import opened TokenModel

  class StripeTransaction {
    var id: string
    /** The stored JSON text; null until `setData`. */
    var data: Option<JsonText>
    var email: Option<string>

    /** `new StripeTransaction()`: a fresh UUID and neither payload nor owner. */
    constructor (freshId: Uuid)
      ensures id == freshId
      ensures data.None? && email.None?
      ensures GetData() == map[] && GetUser().None?
    {
      id := freshId;
      data := None;
      email := None;
    }

    /** `getData`: the payload as a map, empty when it is null or not an object. */
    function GetData(): (m: JsonObject)
      reads this
      ensures data.Some? && data.value.Object? ==> m == data.value.fields
      ensures data.None? || data.value.NotAnObject? ==> m == map[]
    {
      match data
      case None => map[]
      case Some(Object(fields)) => fields
      case Some(NotAnObject(_)) => map[]
    }

    /** `setData`: the payload is replaced wholesale. */
    method SetData(d: JsonText)
      modifies this`data
      ensures data == Some(d)
      ensures GetData() == if d.Object? then d.fields else map[]
    {
      data := Some(d);
    }

    method SetUser(e: Option<string>)
      modifies this`email
      ensures GetUser() == e
    {
      email := e;
    }

    /** `getUser`: the paying e-mail, null until `setUser`. */
    function GetUser(): Option<string>
      reads this
    {
      email
    }

    /** `getClientSecret`: the payload's `client_secret`, as text, or null. */
    function GetClientSecret(): (r: Option<string>)
      reads this
      ensures r.Some? <==> "client_secret" in GetData() && GetData()["client_secret"] != JNull
      ensures "client_secret" in GetData() && GetData()["client_secret"].JStr? ==> r == Some(GetData()["client_secret"].s)
      ensures "client_secret" in GetData() && GetData()["client_secret"].JOther? ==> r == Some(GetData()["client_secret"].rendering)
      ensures data == None ==> r.None?
    {
      GetString(GetData(), "client_secret")
    }

    /** `getStripePaymentIntentId`: the payload's `id`, as text, or null. */
    function GetStripePaymentIntentId(): (r: Option<string>)
      reads this
      ensures r.Some? <==> "id" in GetData() && GetData()["id"] != JNull
      ensures "id" in GetData() && GetData()["id"].JStr? ==> r == Some(GetData()["id"].s)
      ensures "id" in GetData() && GetData()["id"].JOther? ==> r == Some(GetData()["id"].rendering)
      ensures data == None ==> r.None?
    {
      GetString(GetData(), "id")
    }
  }
}
