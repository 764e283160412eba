/**
 * The database tables the modelled handlers read and write. Each table is
 * a map from its SERIAL primary key to a row; each SERIAL counter is the
 * next key the table hands out.
 */
module Schema {
  import opened Common

  /** A row of `stations`. */
  datatype Station = Station(name: Option<string>, location: Option<string>)

  /**
   * A row of `equipment`: computers and printers of a station share it,
   * told apart by `kind` (the `type` column). A computer fills the first
   * group of descriptive columns, a printer `serialNumber` and `status`.
   */
  datatype Equipment = Equipment(
    stationId: Option<int>,
    kind: string,
    name: Option<string>,
    assignedUser: Option<string>,
    yearPurchased: Option<string>,
    processor: Option<string>,
    ram: Option<string>,
    deviceId: Option<string>,
    productId: Option<string>,
    systemType: Option<string>,
    penTouch: Option<string>,
    serialNumber: Option<string>,
    status: Option<string>)

  /** A row of the separate `printers` table that equipment transfers use. */
  datatype Printer = Printer(stationId: Option<int>, name: Option<string>)

  /** A row of `equipment_transfers`, the transfer history. */
  datatype Transfer = Transfer(
    equipmentType: Option<string>,
    deviceId: Option<int>,
    equipmentName: Option<string>,
    serialNumber: Option<string>,
    fromStationId: Option<int>,
    toStationId: Option<int>,
    transferDate: Option<string>,
    transferReason: Option<string>,
    additionalNotes: Option<string>)

  /** The `status` of a shipment: `'sent'` on creation, `'received'` once marked. */
  datatype ShipmentStatus = Sent | Received

  /** A row of `send_items`, one shipment between two stations. */
  datatype Shipment = Shipment(
    fromStationId: Option<int>,
    toStationId: Option<int>,
    sentBy: Option<string>,
    receivedBy: Option<string>,
    sendDate: Option<string>,
    expectedDeliveryDate: Option<string>,
    notes: Option<string>,
    photoPaths: seq<string>,
    status: ShipmentStatus,
    receivedDate: Option<string>)

  /** A row of `send_items_details`, one line item of a shipment. */
  datatype ShipmentItem = ShipmentItem(sendId: int, itemName: string, quantity: string, condition: string)

  /** Every key of `rows` was handed out before `next`. */
  predicate KeysBelow<T>(rows: map<int, T>, next: int) {
    forall k :: k in rows ==> k < next
  }

  /** The content of every table at one moment. */
  datatype Tables = Tables(
    stations: map<int, Station>,
    equipment: map<int, Equipment>,
    nextEquipmentId: int,
    printers: map<int, Printer>,
    transfers: map<int, Transfer>,
    nextTransferId: int,
    shipments: map<int, Shipment>,
    nextShipmentId: int,
    shipmentItems: map<int, ShipmentItem>,
    nextShipmentItemId: int)

  /** SERIAL keys are fresh, and every line item belongs to a shipment that exists. */
  predicate ValidTables(t: Tables) {
    && KeysBelow(t.equipment, t.nextEquipmentId)
    && KeysBelow(t.transfers, t.nextTransferId)
    && KeysBelow(t.shipments, t.nextShipmentId)
    && KeysBelow(t.shipmentItems, t.nextShipmentItemId)
    && (forall k :: k in t.shipmentItems ==> t.shipmentItems[k].sendId in t.shipments)
  }

  /** The database the handlers share. */
  class Database {
    var stations: map<int, Station>
    var equipment: map<int, Equipment>
    var nextEquipmentId: int
    var printers: map<int, Printer>
    var transfers: map<int, Transfer>
    var nextTransferId: int
    var shipments: map<int, Shipment>
    var nextShipmentId: int
    var shipmentItems: map<int, ShipmentItem>
    var nextShipmentItemId: int

    /** SERIAL keys are fresh, and every line item belongs to a shipment that exists. */
    predicate Valid()
      reads this
    {
      ValidTables(Snapshot())
    }

    function Snapshot(): Tables
      reads this
    {
      Tables(stations, equipment, nextEquipmentId, printers, transfers, nextTransferId,
             shipments, nextShipmentId, shipmentItems, nextShipmentItemId)
    }

    /** An empty database. */
    constructor ()
      ensures Valid()
      ensures stations == map[] && equipment == map[] && printers == map[]
      ensures transfers == map[] && shipments == map[] && shipmentItems == map[]
    {
      stations, equipment, printers := map[], map[], map[];
      transfers, shipments, shipmentItems := map[], map[], map[];
      nextEquipmentId, nextTransferId, nextShipmentId, nextShipmentItemId := 1, 1, 1, 1;
    }
  }
}
