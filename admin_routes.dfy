/**
 * The admin handlers that change tables: creating a shipment with its line
 * items and photos, the two shipment updates, moving a device between
 * stations, and deleting a station or a piece of equipment.
 */
module AdminRoutes {
  import opened Common
  import opened Schema
  import opened Access
  import opened Uploads
  import opened Notes

  // ---------------- send_items ----------------

  /** The fields of the "send items" form; the three item lists are parallel. */
  datatype SendForm = SendForm(
    fromStationId: Option<int>,
    toStationId: Option<int>,
    sentBy: Option<string>,
    receivedBy: Option<string>,
    sendDate: Option<string>,
    expectedDeliveryDate: Option<string>,
    notes: Option<string>,
    itemNames: seq<string>,
    itemQuantities: seq<string>,
    itemConditions: seq<string>)

  /** The shipment row `send_items` inserts; an empty expected date is stored as NULL. */
  function NewShipment(form: SendForm, photoPaths: seq<string>): Shipment {
    Shipment(form.fromStationId, form.toStationId, form.sentBy, form.receivedBy, form.sendDate,
             OrNone(form.expectedDeliveryDate), form.notes, photoPaths, Sent, None)
  }

  /** A quantity or condition is missing for some item name: `item_quantities[i]` raises. */
  predicate ItemListsShort(form: SendForm) {
    |form.itemQuantities| < |form.itemNames| || |form.itemConditions| < |form.itemNames|
  }

  /**
   * The line items of shipment `sendId`, under the keys `firstId`,
   * `firstId + 1`, ...: item `i` pairs the i-th name, quantity and condition.
   */
  function ItemRows(firstId: int, sendId: int, names: seq<string>, quantities: seq<string>, conditions: seq<string>)
    : map<int, ShipmentItem>
    requires |names| <= |quantities| && |names| <= |conditions|
    decreases |names|
  {
    if names == [] then map[]
    else
      var n := |names| - 1;
      ItemRows(firstId, sendId, names[..n], quantities, conditions)
        [firstId + n := ShipmentItem(sendId, names[n], quantities[n], conditions[n])]
  }

  /** The items of one shipment occupy exactly the next `|names|` keys, and each carries `sendId`. */
  lemma {:induction false} ItemRowsKeys(firstId: int, sendId: int, names: seq<string>, quantities: seq<string>,
                                        conditions: seq<string>)
    requires |names| <= |quantities| && |names| <= |conditions|
    ensures var rows := ItemRows(firstId, sendId, names, quantities, conditions);
      && (forall k :: k in rows <==> firstId <= k < firstId + |names|)
      && (forall k :: k in rows ==> rows[k].sendId == sendId)
    decreases |names|
  {
    if names != [] {
      var n := |names| - 1;
      ItemRowsKeys(firstId, sendId, names[..n], quantities, conditions);
      assert ItemRows(firstId, sendId, names, quantities, conditions)
          == ItemRows(firstId, sendId, names[..n], quantities, conditions)
               [firstId + n := ShipmentItem(sendId, names[n], quantities[n], conditions[n])];
    }
  }

  /** Taking one more name adds its row under the next key. */
  lemma ItemRowsStep(firstId: int, sendId: int, names: seq<string>, quantities: seq<string>,
                     conditions: seq<string>, i: int)
    requires 0 <= i < |names| && i < |quantities| && i < |conditions|
    ensures ItemRows(firstId, sendId, names[..i + 1], quantities, conditions)
         == ItemRows(firstId, sendId, names[..i], quantities, conditions)
              [firstId + i := ShipmentItem(sendId, names[i], quantities[i], conditions[i])]
  {
    assert names[..i + 1][..i] == names[..i];
  }

  /** The row under key `firstId + i` pairs the i-th name, quantity and condition. */
  lemma {:induction false} ItemRowAt(firstId: int, sendId: int, names: seq<string>, quantities: seq<string>,
                                     conditions: seq<string>, i: int)
    requires |names| <= |quantities| && |names| <= |conditions|
    requires 0 <= i < |names|
    ensures var rows := ItemRows(firstId, sendId, names, quantities, conditions);
      firstId + i in rows && rows[firstId + i] == ShipmentItem(sendId, names[i], quantities[i], conditions[i])
    decreases |names|
  {
    var n := |names| - 1;
    if i < n {
      ItemRowAt(firstId, sendId, names[..n], quantities, conditions, i);
    }
  }

  /** The number of items for which a name, a quantity and a condition all exist. */
  function CompleteItems(names: seq<string>, quantities: seq<string>, conditions: seq<string>): (n: nat)
    ensures n <= |names| && n <= |quantities| && n <= |conditions|
    ensures n == |names| || n == |quantities| || n == |conditions|
  {
    if |names| <= |quantities| && |names| <= |conditions| then |names|
    else if |quantities| <= |conditions| then |quantities|
    else |conditions|
  }

  /**
   * Line items written under earlier shipments keep their shipment ids, so
   * the items of the new shipment are exactly the ones just inserted.
   */
  lemma ItemsOfNewShipment(items: map<int, ShipmentItem>, firstId: int, sendId: int,
                           names: seq<string>, quantities: seq<string>, conditions: seq<string>, k: int)
    requires |names| <= |quantities| && |names| <= |conditions|
    requires KeysBelow(items, firstId)
    requires forall j :: j in items ==> items[j].sendId < sendId
    ensures var all := items + ItemRows(firstId, sendId, names, quantities, conditions);
      k in all && all[k].sendId == sendId <==> firstId <= k < firstId + |names|
  {
    var rows := ItemRows(firstId, sendId, names, quantities, conditions);
    ItemRowsKeys(firstId, sendId, names, quantities, conditions);
    if firstId <= k < firstId + |names| {
      ItemRowAt(firstId, sendId, names, quantities, conditions, k - firstId);
    }
  }

  /** Appending the items of a new shipment keeps item keys fresh and item shipments existing. */
  lemma ItemsStayValid(items: map<int, ShipmentItem>, shipmentIds: set<int>, firstId: int, sendId: int,
                       names: seq<string>, quantities: seq<string>, conditions: seq<string>)
    requires |names| <= |quantities| && |names| <= |conditions|
    requires KeysBelow(items, firstId)
    requires forall j :: j in items ==> items[j].sendId in shipmentIds
    ensures var all := items + ItemRows(firstId, sendId, names, quantities, conditions);
      KeysBelow(all, firstId + |names|) && forall j :: j in all ==> all[j].sendId in shipmentIds + {sendId}
  {
    ItemRowsKeys(firstId, sendId, names, quantities, conditions);
  }

  /** Updating the right operand of a union updates the union. */
  lemma UnionUpdate(a: map<int, ShipmentItem>, b: map<int, ShipmentItem>, k: int, v: ShipmentItem)
    ensures a + b[k := v] == (a + b)[k := v]
  {
  }

  /**
   * The item loop of `send_items`: inserts line item `i` for `i` from 0
   * until an item name has no quantity or condition (`IndexError`) or the
   * names are exhausted; `complete` says which happened.
   */
  method InsertItems(db: Database, sendId: int, names: seq<string>, quantities: seq<string>, conditions: seq<string>)
    returns (complete: bool)
    modifies db`shipmentItems, db`nextShipmentItemId
    ensures complete == (|names| <= |quantities| && |names| <= |conditions|)
    ensures var n := CompleteItems(names, quantities, conditions);
      && db.shipmentItems == old(db.shipmentItems) + ItemRows(old(db.nextShipmentItemId), sendId, names[..n], quantities, conditions)
      && db.nextShipmentItemId == old(db.nextShipmentItemId) + n
  {
    ghost var firstId := db.nextShipmentItemId;
    for i := 0 to |names|
      invariant i <= |quantities| && i <= |conditions|
      invariant db.shipmentItems == old(db.shipmentItems) + ItemRows(firstId, sendId, names[..i], quantities, conditions)
      invariant db.nextShipmentItemId == firstId + i
    {
      if i >= |quantities| || i >= |conditions| {
        assert i == CompleteItems(names, quantities, conditions);
        return false;
      }
      var item := ShipmentItem(sendId, names[i], quantities[i], conditions[i]);
      ItemRowsStep(firstId, sendId, names, quantities, conditions, i);
      UnionUpdate(old(db.shipmentItems), ItemRows(firstId, sendId, names[..i], quantities, conditions), firstId + i, item);
      db.shipmentItems := db.shipmentItems[db.nextShipmentItemId := item];
      db.nextShipmentItemId := db.nextShipmentItemId + 1;
    }
    assert names[..|names|] == names;
    complete := true;
  }

  /** The INSERT into `send_items ... RETURNING id`: one shipment under the next key, whose key is returned. */
  method AppendShipment(db: Database, shipment: Shipment) returns (sendId: int)
    requires KeysBelow(db.shipments, db.nextShipmentId)
    modifies db`shipments, db`nextShipmentId
    ensures sendId == old(db.nextShipmentId) && sendId !in old(db.shipments)
    ensures db.shipments == old(db.shipments)[sendId := shipment]
    ensures db.nextShipmentId == sendId + 1
    ensures KeysBelow(db.shipments, db.nextShipmentId)
  {
    sendId := db.nextShipmentId;
    db.shipments := db.shipments[sendId := shipment];
    db.nextShipmentId := sendId + 1;
  }

  /**
   * The tables after a committed `send_items`: the shipment under the next
   * shipment key, then its items under the next item keys.
   */
  function AfterSend(t: Tables, form: SendForm, photoPaths: seq<string>): Tables
    requires !ItemListsShort(form)
  {
    t.(shipments := t.shipments[t.nextShipmentId := NewShipment(form, photoPaths)],
       nextShipmentId := t.nextShipmentId + 1,
       shipmentItems := t.shipmentItems
         + ItemRows(t.nextShipmentItemId, t.nextShipmentId, form.itemNames, form.itemQuantities, form.itemConditions),
       nextShipmentItemId := t.nextShipmentItemId + |form.itemNames|)
  }

  /** A committed shipment keeps the tables valid, and its key was fresh. */
  lemma SentKeepsValid(t: Tables, form: SendForm, photoPaths: seq<string>)
    requires ValidTables(t) && !ItemListsShort(form)
    ensures ValidTables(AfterSend(t, form, photoPaths))
    ensures t.nextShipmentId !in t.shipments
  {
    ItemsStayValid(t.shipmentItems, t.shipments.Keys, t.nextShipmentItemId, t.nextShipmentId,
                   form.itemNames, form.itemQuantities, form.itemConditions);
    assert AfterSend(t, form, photoPaths).shipments.Keys == t.shipments.Keys + {t.nextShipmentId};
  }

  /**
   * `send_items` (POST): keeps the accepted photos, inserts one shipment
   * with status `'sent'` and then one line item per item name. When a
   * quantity or condition is missing for some name the handler raises
   * before committing, so nothing is stored.
   */
  method SendItems(db: Database, role: Role, form: SendForm, uploads: seq<Upload>) returns (outcome: Outcome)
    requires db.Valid()
    modifies db`shipments, db`nextShipmentId, db`shipmentItems, db`nextShipmentItemId
    ensures db.Valid()
    ensures outcome == (if !role.Admin? then AccessDenied else if ItemListsShort(form) then Failed else Done)
    ensures outcome != Done ==> db.Snapshot() == old(db.Snapshot())
    ensures outcome == Done ==> db.Snapshot() == AfterSend(old(db.Snapshot()), form, PhotoPaths(uploads))
  {
    if !role.Admin? {
      return AccessDenied;
    }
    var photoPaths := CollectPhotoPaths(uploads);

    var saved := db.Snapshot();
    var sendId := AppendShipment(db, NewShipment(form, photoPaths));

    var complete := InsertItems(db, sendId, form.itemNames, form.itemQuantities, form.itemConditions);
    if !complete {
      // IndexError: the transaction is never committed
      db.shipments, db.nextShipmentId := saved.shipments, saved.nextShipmentId;
      db.shipmentItems, db.nextShipmentItemId := saved.shipmentItems, saved.nextShipmentItemId;
      return Failed;
    }
    assert form.itemNames[..|form.itemNames|] == form.itemNames;
    SentKeepsValid(saved, form, photoPaths);
    outcome := Done;
  }

  // ---------------- update_expected_date / mark_items_received ----------------

  /** The shipment after `update_expected_date`: new date, and the date entry appended to its notes. */
  function Rescheduled(s: Shipment, date: string, remark: string): (r: Shipment)
    ensures r.expectedDeliveryDate == Some(date)
    ensures HasNotes(s.notes) ==> r.notes == Some(s.notes.value + "\n\nDate Update: " + date + " - " + remark)
    ensures !HasNotes(s.notes) ==> r.notes == Some("Date Update: " + date + " - " + remark)
    ensures r.(expectedDeliveryDate := s.expectedDeliveryDate, notes := s.notes) == s
  {
    var entry := DateUpdateEntry(date, remark);
    assert HasNotes(s.notes) ==>
      AppendNote(s.notes, entry) == s.notes.value + "\n\nDate Update: " + date + " - " + remark by {
      assert Separator + "Date Update: " == "\n\nDate Update: ";
    }
    s.(expectedDeliveryDate := Some(date), notes := Some(AppendNote(s.notes, entry)))
  }

  /** The shipment after `mark_items_received`: received, by whom and when, with the entry appended. */
  function MarkedReceived(s: Shipment, receivedBy: string, receivedDate: string, remark: string): (r: Shipment)
    ensures r.status == Received && r.receivedBy == Some(receivedBy) && r.receivedDate == Some(receivedDate)
    ensures HasNotes(s.notes) ==>
      r.notes == Some(s.notes.value + "\n\nReceived: " + receivedDate + " by " + receivedBy + " - " + remark)
    ensures !HasNotes(s.notes) ==>
      r.notes == Some("Received: " + receivedDate + " by " + receivedBy + " - " + remark)
    ensures r.(status := s.status, receivedBy := s.receivedBy, receivedDate := s.receivedDate, notes := s.notes) == s
  {
    var entry := ReceivedEntry(receivedDate, receivedBy, remark);
    assert HasNotes(s.notes) ==>
      AppendNote(s.notes, entry) == s.notes.value + "\n\nReceived: " + receivedDate + " by " + receivedBy + " - " + remark by {
      assert Separator + "Received: " == "\n\nReceived: ";
    }
    s.(status := Received, receivedBy := Some(receivedBy), receivedDate := Some(receivedDate),
       notes := Some(AppendNote(s.notes, entry)))
  }

  /** Rescheduling keeps the earlier notes in front and ends the notes with the date entry. */
  lemma RescheduleKeepsHistory(s: Shipment, date: string, remark: string)
    ensures var notes := Rescheduled(s, date, remark).notes.value;
      && (s.notes.Some? ==> s.notes.value <= notes)
      && |DateUpdateEntry(date, remark)| <= |notes|
      && notes[|notes| - |DateUpdateEntry(date, remark)|..] == DateUpdateEntry(date, remark)
  {
    AppendKeepsOldNotes(s.notes, DateUpdateEntry(date, remark));
    AppendEndsWithEntry(s.notes, DateUpdateEntry(date, remark));
  }

  /** Marking received keeps the earlier notes in front and ends the notes with the receipt entry. */
  lemma ReceiptKeepsHistory(s: Shipment, receivedBy: string, receivedDate: string, remark: string)
    ensures var notes := MarkedReceived(s, receivedBy, receivedDate, remark).notes.value;
      var entry := ReceivedEntry(receivedDate, receivedBy, remark);
      && (s.notes.Some? ==> s.notes.value <= notes)
      && |entry| <= |notes|
      && notes[|notes| - |entry|..] == entry
  {
    AppendKeepsOldNotes(s.notes, ReceivedEntry(receivedDate, receivedBy, remark));
    AppendEndsWithEntry(s.notes, ReceivedEntry(receivedDate, receivedBy, remark));
  }

  /**
   * `update_expected_date`: without a date nothing changes; otherwise the
   * UPDATE rewrites the shipment `sendId` (none, if there is no such row).
   */
  method UpdateExpectedDate(db: Database, role: Role, sendId: int, expectedDate: Option<string>, dateNotes: string)
    returns (outcome: Outcome)
    requires db.Valid()
    modifies db`shipments
    ensures db.Valid()
    ensures outcome == (if !role.Admin? then AccessDenied else if !Filled(expectedDate) then MissingField else Done)
    ensures outcome != Done ==> db.Snapshot() == old(db.Snapshot())
    ensures outcome == Done ==> db.Snapshot() == old(db.Snapshot()).(shipments :=
      if sendId in old(db.shipments)
      then old(db.shipments)[sendId := Rescheduled(old(db.shipments)[sendId], expectedDate.value, dateNotes)]
      else old(db.shipments))
  {
    if !role.Admin? {
      return AccessDenied;
    }
    if !Filled(expectedDate) {
      return MissingField;
    }
    if sendId in db.shipments {
      db.shipments := db.shipments[sendId := Rescheduled(db.shipments[sendId], expectedDate.value, dateNotes)];
    }
    outcome := Done;
  }

  /**
   * `mark_items_received`: without both the receiver and the date nothing
   * changes; otherwise the shipment `sendId` (if any) is marked received.
   */
  method MarkItemsReceived(db: Database, role: Role, sendId: int, receivedBy: Option<string>,
                           receivedDate: Option<string>, receiveNotes: string)
    returns (outcome: Outcome)
    requires db.Valid()
    modifies db`shipments
    ensures db.Valid()
    ensures outcome == (if !role.Admin? then AccessDenied
                        else if !Filled(receivedBy) || !Filled(receivedDate) then MissingField
                        else Done)
    ensures outcome != Done ==> db.Snapshot() == old(db.Snapshot())
    ensures outcome == Done ==> db.Snapshot() == old(db.Snapshot()).(shipments :=
      if sendId in old(db.shipments)
      then old(db.shipments)[sendId := MarkedReceived(old(db.shipments)[sendId], receivedBy.value, receivedDate.value, receiveNotes)]
      else old(db.shipments))
  {
    if !role.Admin? {
      return AccessDenied;
    }
    if !Filled(receivedBy) || !Filled(receivedDate) {
      return MissingField;
    }
    if sendId in db.shipments {
      db.shipments := db.shipments[sendId :=
        MarkedReceived(db.shipments[sendId], receivedBy.value, receivedDate.value, receiveNotes)];
    }
    outcome := Done;
  }

  // ---------------- transfer_equipment ----------------

  /** The fields of the transfer form. */
  datatype TransferForm = TransferForm(
    equipmentType: Option<string>,
    deviceId: Option<int>,
    fromStationId: Option<int>,
    toStationId: Option<int>,
    transferDate: Option<string>,
    transferReason: Option<string>,
    additionalNotes: Option<string>,
    additionalName: Option<string>,
    additionalSerial: Option<string>)

  /** `equipment_type in ['computer', 'printer']`: the transfer moves a recorded device. */
  predicate IsDevice(equipmentType: Option<string>) {
    equipmentType == Some("computer") || equipmentType == Some("printer")
  }

  /** `UPDATE equipment SET station_id = to WHERE id = device`: only that row's station changes. */
  function RelocatedEquipment(rows: map<int, Equipment>, device: Option<int>, to: Option<int>)
    : (r: map<int, Equipment>)
    ensures r.Keys == rows.Keys
  {
    if device.Some? && device.value in rows
    then rows[device.value := rows[device.value].(stationId := to)]
    else rows
  }

  /** `UPDATE printers SET station_id = to WHERE id = device`: only that row's station changes. */
  function RelocatedPrinter(rows: map<int, Printer>, device: Option<int>, to: Option<int>)
    : (r: map<int, Printer>)
    ensures r.Keys == rows.Keys
  {
    if device.Some? && device.value in rows
    then rows[device.value := rows[device.value].(stationId := to)]
    else rows
  }

  /** The name the history row records for a moved device, `'Unknown'` when it has no row. */
  function DeviceName(form: TransferForm, equipment: map<int, Equipment>, printers: map<int, Printer>)
    : Option<string>
  {
    var id := form.deviceId;
    if form.equipmentType == Some("computer") then
      (if id.Some? && id.value in equipment then equipment[id.value].name else Some("Unknown"))
    else
      (if id.Some? && id.value in printers then printers[id.value].name else Some("Unknown"))
  }

  /** A transfer changes the station of the addressed device only, and nothing else about any row. */
  lemma RelocationMovesOnlyDevice(equipment: map<int, Equipment>, printers: map<int, Printer>,
                                  device: Option<int>, to: Option<int>)
    ensures var r := RelocatedEquipment(equipment, device, to);
      forall k :: k in equipment ==>
        r[k] == equipment[k].(stationId := if device == Some(k) then to else equipment[k].stationId)
    ensures var r := RelocatedPrinter(printers, device, to);
      forall k :: k in printers ==>
        r[k] == printers[k].(stationId := if device == Some(k) then to else printers[k].stationId)
  {
  }

  /** The name a transfer records is the same whether read before or after the device moves. */
  lemma MoveKeepsName(form: TransferForm, equipment: map<int, Equipment>, printers: map<int, Printer>)
    ensures DeviceName(form, RelocatedEquipment(equipment, form.deviceId, form.toStationId), printers)
         == DeviceName(form, equipment, printers)
    ensures DeviceName(form, equipment, RelocatedPrinter(printers, form.deviceId, form.toStationId))
         == DeviceName(form, equipment, printers)
  {
  }

  /** The `equipment_transfers` row a transfer appends. */
  function TransferRecord(form: TransferForm, equipment: map<int, Equipment>, printers: map<int, Printer>)
    : (t: Transfer)
    ensures t.equipmentType == form.equipmentType
    ensures t.fromStationId == form.fromStationId && t.toStationId == form.toStationId
    ensures t.transferDate == form.transferDate && t.transferReason == form.transferReason
    ensures t.additionalNotes == form.additionalNotes
    ensures IsDevice(form.equipmentType) ==>
      t.deviceId == form.deviceId && t.serialNumber == None && t.equipmentName == DeviceName(form, equipment, printers)
    ensures !IsDevice(form.equipmentType) ==>
      t.deviceId == None && t.equipmentName == form.additionalName && t.serialNumber == OrNone(form.additionalSerial)
  {
    if IsDevice(form.equipmentType) then
      Transfer(form.equipmentType, form.deviceId, DeviceName(form, equipment, printers), None,
               form.fromStationId, form.toStationId, form.transferDate, form.transferReason, form.additionalNotes)
    else
      Transfer(form.equipmentType, None, form.additionalName, OrNone(form.additionalSerial),
               form.fromStationId, form.toStationId, form.transferDate, form.transferReason, form.additionalNotes)
  }

  /** The INSERT into `equipment_transfers`: one row under the next key. */
  method AppendTransfer(db: Database, record: Transfer)
    requires KeysBelow(db.transfers, db.nextTransferId)
    modifies db`transfers, db`nextTransferId
    ensures db.transfers == old(db.transfers)[old(db.nextTransferId) := record]
    ensures db.nextTransferId == old(db.nextTransferId) + 1
    ensures old(db.nextTransferId) !in old(db.transfers)
    ensures KeysBelow(db.transfers, db.nextTransferId)
  {
    db.transfers := db.transfers[db.nextTransferId := record];
    db.nextTransferId := db.nextTransferId + 1;
  }

  /**
   * The UPDATE of a transfer: a computer is moved in `equipment`, a printer
   * in `printers`; an id with no row moves nothing.
   */
  method MoveDevice(db: Database, computer: bool, deviceId: Option<int>, to: Option<int>)
    modifies db`equipment, db`printers
    ensures db.equipment == if computer then RelocatedEquipment(old(db.equipment), deviceId, to) else old(db.equipment)
    ensures db.printers == if computer then old(db.printers) else RelocatedPrinter(old(db.printers), deviceId, to)
  {
    if computer {
      if deviceId.Some? && deviceId.value in db.equipment {
        db.equipment := db.equipment[deviceId.value := db.equipment[deviceId.value].(stationId := to)];
      }
    } else {
      if deviceId.Some? && deviceId.value in db.printers {
        db.printers := db.printers[deviceId.value := db.printers[deviceId.value].(stationId := to)];
      }
    }
  }

  /**
   * The tables after a transfer: the device moved in its own table, and
   * one history row under the next transfer key.
   */
  function Transferred(t: Tables, form: TransferForm): Tables {
    t.(equipment := if form.equipmentType == Some("computer")
                    then RelocatedEquipment(t.equipment, form.deviceId, form.toStationId)
                    else t.equipment,
       printers := if form.equipmentType == Some("printer")
                   then RelocatedPrinter(t.printers, form.deviceId, form.toStationId)
                   else t.printers,
       transfers := t.transfers[t.nextTransferId := TransferRecord(form, t.equipment, t.printers)],
       nextTransferId := t.nextTransferId + 1)
  }

  /** A transfer keeps the tables valid, and the history row's key was fresh. */
  lemma TransferKeepsValid(t: Tables, form: TransferForm)
    requires ValidTables(t)
    ensures ValidTables(Transferred(t, form))
    ensures t.nextTransferId !in t.transfers
    ensures Transferred(t, form).transfers.Keys == t.transfers.Keys + {t.nextTransferId}
  {
  }

  /**
   * `transfer_equipment` (POST): a computer is moved in `equipment`, a
   * printer in `printers`, any other kind moves no row; in every case one
   * history row is appended.
   */
  method TransferEquipment(db: Database, role: Role, form: TransferForm) returns (outcome: Outcome)
    requires db.Valid()
    modifies db`equipment, db`printers, db`transfers, db`nextTransferId
    ensures db.Valid()
    ensures outcome == (if role.Admin? then Done else AccessDenied)
    ensures outcome != Done ==> db.Snapshot() == old(db.Snapshot())
    ensures outcome == Done ==> db.Snapshot() == Transferred(old(db.Snapshot()), form)
  {
    if !role.Admin? {
      return AccessDenied;
    }
    var deviceId: Option<int> := None;
    var equipmentName: Option<string>;
    var serialNumber: Option<string> := None;
    if IsDevice(form.equipmentType) {
      deviceId := form.deviceId;
      MoveDevice(db, form.equipmentType == Some("computer"), deviceId, form.toStationId);
      // the name is read back after the UPDATE; moving a device does not rename it
      equipmentName := DeviceName(form, db.equipment, db.printers);
      MoveKeepsName(form, old(db.equipment), old(db.printers));
    } else {
      equipmentName := form.additionalName;
      serialNumber := OrNone(form.additionalSerial);
      deviceId := None;
    }
    var record := Transfer(form.equipmentType, deviceId, equipmentName, serialNumber,
      form.fromStationId, form.toStationId, form.transferDate, form.transferReason, form.additionalNotes);
    AppendTransfer(db, record);
    TransferKeepsValid(old(db.Snapshot()), form);
    outcome := Done;
  }

  // ---------------- delete_station / delete_equipment ----------------

  /** `DELETE FROM equipment WHERE station_id = s`: exactly the rows of other stations remain. */
  function WithoutStation(rows: map<int, Equipment>, stationId: int): (r: map<int, Equipment>)
    ensures forall k :: k in r <==> k in rows && rows[k].stationId != Some(stationId)
    ensures forall k :: k in r ==> r[k] == rows[k]
  {
    map k | k in rows && rows[k].stationId != Some(stationId) :: rows[k]
  }

  /** `delete_station`: the station's equipment, then the station itself; nothing else. */
  method DeleteStation(db: Database, role: Role, stationId: int) returns (outcome: Outcome)
    requires db.Valid()
    modifies db`equipment, db`stations
    ensures db.Valid()
    ensures outcome == (if role.Admin? then Done else AccessDenied)
    ensures outcome != Done ==> db.Snapshot() == old(db.Snapshot())
    ensures outcome == Done ==> db.Snapshot() == old(db.Snapshot()).(
      equipment := WithoutStation(old(db.equipment), stationId),
      stations := old(db.stations) - {stationId})
  {
    if !role.Admin? {
      return AccessDenied;
    }
    db.equipment := WithoutStation(db.equipment, stationId);
    db.stations := db.stations - {stationId};
    outcome := Done;
  }

  /** `delete_equipment` of the admin blueprint: an unknown id changes nothing. */
  method DeleteEquipment(db: Database, role: Role, equipmentId: int) returns (outcome: Outcome)
    requires db.Valid()
    modifies db`equipment
    ensures db.Valid()
    ensures outcome == (if !role.Admin? then AccessDenied
                        else if equipmentId !in old(db.equipment) then NotFound
                        else Done)
    ensures outcome != Done ==> db.Snapshot() == old(db.Snapshot())
    ensures outcome == Done ==> db.Snapshot() == old(db.Snapshot()).(equipment := old(db.equipment) - {equipmentId})
  {
    if !role.Admin? {
      return AccessDenied;
    }
    if equipmentId !in db.equipment {
      return NotFound;
    }
    db.equipment := db.equipment - {equipmentId};
    outcome := Done;
  }
}
