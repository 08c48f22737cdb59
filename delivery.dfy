/** The delivery records of service/delivery.py. */
module Deliveries {
  import opened Records
  import Ids

  const DeliveryPrefix := "del_"
  const Pending := "Pending"

  /** The id of the `n`-th delivery: `del_<n>`. */
  function DeliveryKey(n: nat): string
  {
    Ids.Key(DeliveryPrefix, n)
  }

  /** The record `create_delivery` stores: the request's fields verbatim, status Pending. */
  function NewDelivery(deliveryId: string, request: DeliveryRequest): Delivery
  {
    Delivery(deliveryId, request.orderId, request.address, Pending, request.estimatedDeliveryDate)
  }

  /** Every delivery is stored under its own id, and every id was issued by
      the count scheme. */
  ghost predicate WellKeyed(deliveries: map<string, Delivery>)
  {
    && Ids.Issued(deliveries, DeliveryPrefix)
    && forall k :: k in deliveries ==> deliveries[k].deliveryId == k
  }

  /** Storing a record under the next delivery id keeps the deliveries well
      keyed and grows them by one: `Ids.IssuedAfterInsert` for the prefix
      `del_`, as `Sales.InsertKeepsWellKeyed` is for `order_`. */
  lemma InsertKeepsWellKeyed(deliveries: map<string, Delivery>, record: Delivery)
    requires WellKeyed(deliveries)
    requires record.deliveryId == DeliveryKey(|deliveries| + 1)
    ensures |deliveries[record.deliveryId := record]| == |deliveries| + 1
    ensures WellKeyed(deliveries[record.deliveryId := record])
  {
    Ids.IssuedAfterInsert(deliveries, DeliveryPrefix, record);
  }
}
