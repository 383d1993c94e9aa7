/** The restock screen's working set: the low-stock list and the pending
    quantity typed for each product, keyed by product `_id`, with the local
    guard against non-positive quantities and the updates that depend on the
    restock reply. */
module Restock {
  import opened Wrappers
  import opened Records
  import opened Decimal

  datatype RestockState = RestockState(items: seq<StockItem>, quantities: map<string, int>)

  /** The body of `POST /api/restockproducts`. */
  datatype RestockRequest = RestockRequest(productId: string, quantity: int)

  /** What the restock request delivered: the request or its JSON parse
      threw, or a response with its `ok` status and its `error` text
      (empty when absent). */
  datatype RestockReply = Thrown | Replied(ok: bool, error: string)

  /** The new working set, the request sent (if any) and the notice shown. */
  datatype RestockStep = RestockStep(state: RestockState, request: Option<RestockRequest>, notice: Notice)

  const InvalidQuantity := "Please enter a valid quantity."
  const RestockedMessage := "Product restocked!"
  const RestockFailed := "Failed to restock."
  const ServerError := "Server error occurred."

  /** The pending quantity of a product; one without an entry reads as 0. */
  function PendingQuantity(q: map<string, int>, id: string): (n: int)
    ensures id !in q ==> n == 0
    ensures id in q ==> n == q[id]
  {
    if id in q && q[id] != 0 then q[id] else 0
  }

  /** The list without the items whose `_id` is `id`, in their order. */
  function RemoveId(items: seq<StockItem>, id: string): (r: seq<StockItem>)
    ensures forall x :: x in r <==> x in items && x.id != id
    ensures |r| <= |items|
    ensures (forall i :: 0 <= i < |items| ==> items[i].id != id) ==> r == items
  {
    if |items| == 0 then []
    else
      var rest := RemoveId(items[1..], id);
      assert forall x :: x in items <==> x == items[0] || x in items[1..];
      if items[0].id == id then rest else [items[0]] + rest
  }

  /** The submission succeeds: the guard lets it through and the response
      is ok. */
  predicate Succeeds(s: RestockState, productId: string, reply: RestockReply) {
    PendingQuantity(s.quantities, productId) > 0 && reply.Replied? && reply.ok
  }

  /** The Restock button for `productId`, given the reply the request would
      get. */
  function HandleRestock(s: RestockState, productId: string, reply: RestockReply): (r: RestockStep)
    ensures r.request.Some? <==> PendingQuantity(s.quantities, productId) > 0
    ensures r.request.Some? ==> r.request.value == RestockRequest(productId, PendingQuantity(s.quantities, productId))
    ensures r.request.None? ==> r.state == s && r.notice == Failure(InvalidQuantity)
    ensures Succeeds(s, productId, reply) ==>
      && r.state.quantities == s.quantities[productId := 0]
      && r.state.items == RemoveId(s.items, productId)
      && r.notice == Success(RestockedMessage)
    ensures !Succeeds(s, productId, reply) ==> r.state == s && r.notice.Failure?
    ensures r.request.Some? && reply.Thrown? ==> r.notice == Failure(ServerError)
    ensures r.request.Some? && reply.Replied? && !reply.ok ==>
      r.notice == Failure(if reply.error != "" then reply.error else RestockFailed)
  {
    var quantity := PendingQuantity(s.quantities, productId);
    if quantity <= 0 then RestockStep(s, None, Failure(InvalidQuantity))
    else
      var request := Some(RestockRequest(productId, quantity));
      match reply
      case Thrown => RestockStep(s, request, Failure(ServerError))
      case Replied(ok, error) =>
        if ok then
          RestockStep(RestockState(RemoveId(s.items, productId), s.quantities[productId := 0]),
                      request, Success(RestockedMessage))
        else
          RestockStep(s, request, Failure(if error != "" then error else RestockFailed))
  }

  /** Typing into a product's quantity input: the text is read with
      `parseInt`; `NaN` changes nothing, any other value, zero and negatives
      included, is stored for that product alone. */
  function HandleQuantityChange(q: map<string, int>, id: string, text: string): (r: map<string, int>)
    ensures ParseInt(text).None? ==> r == q
    ensures ParseInt(text).Some? ==>
      && r.Keys == q.Keys + {id}
      && r[id] == ParseInt(text).value
      && forall k :: k in q && k != id ==> r[k] == q[k]
  {
    var parsed := ParseInt(text);
    if parsed.None? then q else q[id := parsed.value]
  }

  /** What a product's quantity input shows: empty for a falsy (zero or
      missing) quantity, the number's text otherwise. */
  function InputValue(q: map<string, int>, id: string): (text: string)
    ensures text == "" <==> PendingQuantity(q, id) == 0
    ensures text != "" ==> ParseInt(text) == Some(q[id])
  {
    if id in q && q[id] != 0 then
      ParseShowExact(q[id]);
      Show(q[id])
    else ""
  }

  /** Removing a product twice is removing it once. */
  lemma RemoveIdIdempotent(items: seq<StockItem>, id: string)
    ensures RemoveId(RemoveId(items, id), id) == RemoveId(items, id)
  {
    var r := RemoveId(items, id);
    forall i | 0 <= i < |r|
      ensures r[i].id != id
    {
      assert r[i] in r;
    }
  }

  /** Removal works piecewise, so the items that stay keep their relative
      order. */
  lemma {:induction false} RemoveIdAppend(a: seq<StockItem>, b: seq<StockItem>, id: string)
    ensures RemoveId(a + b, id) == RemoveId(a, id) + RemoveId(b, id)
  {
    if |a| == 0 {
      assert a + b == b;
    } else {
      assert (a + b)[0] == a[0];
      assert (a + b)[1..] == a[1..] + b;
      RemoveIdAppend(a[1..], b, id);
    }
  }

  /** A successful restock resets only the target's pending quantity, so an
      immediate second restock of the same product is rejected before any
      request, while every other product's quantity is as it was. */
  lemma SuccessResetsOnlyTarget(s: RestockState, productId: string, reply: RestockReply, again: RestockReply)
    requires Succeeds(s, productId, reply)
    ensures var t := HandleRestock(s, productId, reply).state;
      && (forall k :: k != productId ==> PendingQuantity(t.quantities, k) == PendingQuantity(s.quantities, k))
      && HandleRestock(t, productId, again).request == None
      && HandleRestock(t, productId, again).state == t
  {
  }

  /** Typing text that reads as a positive number and pressing Restock
      sends exactly that number, and the input shows the number back. */
  lemma TypedQuantityIsSent(s: RestockState, id: string, text: string, n: int, reply: RestockReply)
    requires ParseInt(text) == Some(n) && n > 0
    ensures var t := s.(quantities := HandleQuantityChange(s.quantities, id, text));
      && InputValue(t.quantities, id) == Show(n)
      && HandleRestock(t, id, reply).request == Some(RestockRequest(id, n))
  {
    var q := HandleQuantityChange(s.quantities, id, text);
    assert q == s.quantities[id := n];
    assert PendingQuantity(q, id) == n;
  }

  /** Text that reads as zero or a negative number is stored as typed and
      only refused when Restock is pressed, without a request and without
      any change. */
  lemma NonPositiveRejectedAtSubmit(s: RestockState, id: string, text: string, n: int, reply: RestockReply)
    requires ParseInt(text) == Some(n) && n <= 0
    ensures var t := s.(quantities := HandleQuantityChange(s.quantities, id, text));
      && t.quantities[id] == n
      && HandleRestock(t, id, reply) == RestockStep(t, None, Failure(InvalidQuantity))
  {
    var q := HandleQuantityChange(s.quantities, id, text);
    assert q == s.quantities[id := n];
    assert PendingQuantity(q, id) <= 0;
  }
}
