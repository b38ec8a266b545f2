// The domain types and the two lifecycle tables of internal/model/model.go.
module Model {
  import opened Common

  datatype Class = Shipment | Invoice | Unclassified

  datatype State =
    | PickedUp | InTransit | OutForDelivery | Delivered
    | Issued | Paid | Voided | Refunded

  /** Lifecycle position of a shipment state; 0 for any other state. */
  function ShipmentRank(s: State): nat {
    match s
    case PickedUp => 1
    case InTransit => 2
    case OutForDelivery => 3
    case Delivered => 4
    case _ => 0
  }

  /** The edges of the invoice lifecycle; no other state has any. */
  predicate InvoiceTransitionAllowed(from: State, to: State) {
    match from
    case Issued => to.Paid? || to.Voided?
    case Paid => to.Refunded?
    case _ => false
  }

  predicate IsShipmentState(s: State) {
    s.PickedUp? || s.InTransit? || s.OutForDelivery? || s.Delivered?
  }

  predicate IsInvoiceState(s: State) {
    s.Issued? || s.Paid? || s.Voided? || s.Refunded?
  }

  /** One immutable fact. The empty state of an UNCLASSIFIED record is None. */
  datatype Normalized = Normalized(
    class_: Class, entityKey: string, canonicalState: Option<State>, eventTime: Option<int>,
    amountMinor: Option<int>, currency: string, vendorStateText: string, confidence: real)

  /** A row of the entities table, without its created_at and updated_at columns. */
  datatype Entity = Entity(
    kind: Class, state: State, rank: nat, lastEventTime: Option<int>,
    amountMinor: Option<int>, currency: Option<string>)

  predicate ValidCurrency(c: string) {
    |c| == 3 && forall i :: 0 <= i < |c| ==> 'A' <= c[i] <= 'Z'
  }
}
