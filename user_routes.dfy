/**
 * The station-scoped equipment handlers of the user blueprint. Each POST
 * handler checks the session role, then (for users) the station, and then
 * inserts, updates or deletes one row of `equipment`.
 */
module UserRoutes {
  import opened Common
  import opened Schema
  import opened Access

  /** The fields of the computer form. */
  datatype ComputerForm = ComputerForm(
    computerName: Option<string>,
    assignedUser: Option<string>,
    yearPurchased: Option<string>,
    processor: Option<string>,
    installedRam: Option<string>,
    deviceId: Option<string>,
    productId: Option<string>,
    systemType: Option<string>,
    penTouch: Option<string>)

  /** The fields of the printer form. */
  datatype PrinterForm = PrinterForm(
    printerName: Option<string>,
    serialNumber: Option<string>,
    yearPurchased: Option<string>,
    status: Option<string>)

  /** The row `add_computer` inserts: the route station, type `'computer'`, the form's columns. */
  function NewComputer(stationId: int, f: ComputerForm): (e: Equipment)
    ensures e.stationId == Some(stationId) && e.kind == "computer"
    ensures e.serialNumber == None && e.status == None
  {
    Equipment(Some(stationId), "computer", f.computerName, f.assignedUser, f.yearPurchased,
              f.processor, f.installedRam, f.deviceId, f.productId, f.systemType, f.penTouch,
              None, None)
  }

  /** The row `add_printer` inserts: the route station, type `'printer'`, the form's columns. */
  function NewPrinter(stationId: int, f: PrinterForm): (e: Equipment)
    ensures e.stationId == Some(stationId) && e.kind == "printer"
    ensures e.assignedUser == None && e.processor == None && e.ram == None
  {
    Equipment(Some(stationId), "printer", f.printerName, None, f.yearPurchased,
              None, None, None, None, None, None, f.serialNumber, f.status)
  }

  /** The row after the UPDATE of `edit_computer`: only the computer columns are overwritten. */
  function EditedComputer(e: Equipment, f: ComputerForm): (r: Equipment)
    ensures r.stationId == e.stationId && r.kind == e.kind
    ensures r.serialNumber == e.serialNumber && r.status == e.status
  {
    e.(name := f.computerName, assignedUser := f.assignedUser, yearPurchased := f.yearPurchased,
       processor := f.processor, ram := f.installedRam, deviceId := f.deviceId,
       productId := f.productId, systemType := f.systemType, penTouch := f.penTouch)
  }

  /** The row after the UPDATE of `edit_printer`: only the printer columns are overwritten. */
  function EditedPrinter(e: Equipment, f: PrinterForm): (r: Equipment)
    ensures r.stationId == e.stationId && r.kind == e.kind
    ensures r.assignedUser == e.assignedUser && r.processor == e.processor && r.ram == e.ram
    ensures r.deviceId == e.deviceId && r.productId == e.productId
    ensures r.systemType == e.systemType && r.penTouch == e.penTouch
  {
    e.(name := f.printerName, serialNumber := f.serialNumber, yearPurchased := f.yearPurchased,
       status := f.status)
  }

  /** The POST requests of the user blueprint that change `equipment`. */
  datatype Request =
    | PostAddComputer(stationId: int, computer: ComputerForm)
    | PostEditComputer(id: int, computer: ComputerForm)
    | PostAddPrinter(stationId: int, printer: PrinterForm)
    | PostEditPrinter(id: int, printer: PrinterForm)
    | PostDelete(id: int)

  /** What a request did: its outcome and the `equipment` table with its SERIAL counter. */
  datatype Effect = Effect(outcome: Outcome, rows: map<int, Equipment>, nextId: int)

  /**
   * Every row that disappears, changes or appears between `before` and
   * `after` belongs to `station`, before and after.
   */
  predicate Confined(before: map<int, Equipment>, after: map<int, Equipment>, station: Option<int>) {
    && (forall k :: k in before && (k !in after || after[k] != before[k]) ==> before[k].stationId == station)
    && (forall k :: k in after && (k !in before || after[k] != before[k]) ==> after[k].stationId == station)
  }

  /** No row that survives moves to another station or changes type. */
  predicate Retained(before: map<int, Equipment>, after: map<int, Equipment>) {
    forall k :: k in before && k in after ==>
      after[k].stationId == before[k].stationId && after[k].kind == before[k].kind
  }

  /** The row `id` exists and has type `kind` (`SELECT ... WHERE id=%s AND type=...`). */
  predicate HasRow(rows: map<int, Equipment>, id: int, kind: string) {
    id in rows && rows[id].kind == kind
  }

  /** The effect of one request on `equipment`, as the handlers decide it. */
  function Step(rows: map<int, Equipment>, nextId: int, role: Role, sessionStation: Option<int>, req: Request): (e: Effect)
    requires KeysBelow(rows, nextId)
    ensures KeysBelow(e.rows, e.nextId) && nextId <= e.nextId
    ensures !Authorized(role) ==> e.outcome == AccessDenied
    ensures e.outcome != Done ==> e.rows == rows && e.nextId == nextId
    ensures role.User? ==> Confined(rows, e.rows, sessionStation)
    ensures Retained(rows, e.rows)
    ensures (req.PostAddComputer? || req.PostAddPrinter?) ==>
      (e.outcome == Done <==> Permits(role, sessionStation, Some(req.stationId)))
    ensures req.PostEditComputer? ==>
      (e.outcome == Done <==> HasRow(rows, req.id, "computer") && Permits(role, sessionStation, rows[req.id].stationId))
    ensures req.PostEditPrinter? ==>
      (e.outcome == Done <==> HasRow(rows, req.id, "printer") && Permits(role, sessionStation, rows[req.id].stationId))
    ensures req.PostDelete? ==>
      (e.outcome == Done <==> req.id in rows && Permits(role, sessionStation, rows[req.id].stationId))
  {
    if !Authorized(role) then Effect(AccessDenied, rows, nextId)
    else match req
      case PostAddComputer(s, f) =>
        if !Permits(role, sessionStation, Some(s)) then Effect(ForeignStation, rows, nextId)
        else Effect(Done, rows[nextId := NewComputer(s, f)], nextId + 1)
      case PostAddPrinter(s, f) =>
        if !Permits(role, sessionStation, Some(s)) then Effect(ForeignStation, rows, nextId)
        else Effect(Done, rows[nextId := NewPrinter(s, f)], nextId + 1)
      case PostEditComputer(id, f) =>
        if !HasRow(rows, id, "computer") then Effect(NotFound, rows, nextId)
        else if !Permits(role, sessionStation, rows[id].stationId) then Effect(ForeignStation, rows, nextId)
        else Effect(Done, rows[id := EditedComputer(rows[id], f)], nextId)
      case PostEditPrinter(id, f) =>
        if !HasRow(rows, id, "printer") then Effect(NotFound, rows, nextId)
        else if !Permits(role, sessionStation, rows[id].stationId) then Effect(ForeignStation, rows, nextId)
        else Effect(Done, rows[id := EditedPrinter(rows[id], f)], nextId)
      case PostDelete(id) =>
        if id !in rows then Effect(NotFound, rows, nextId)
        else if !Permits(role, sessionStation, rows[id].stationId) then Effect(ForeignStation, rows, nextId)
        else Effect(Done, rows - {id}, nextId)
  }

  /** A successful add inserts one row, under a fresh key, at the route station, and keeps every other row. */
  lemma AddInsertsOneRow(rows: map<int, Equipment>, nextId: int, role: Role, sessionStation: Option<int>, req: Request)
    requires KeysBelow(rows, nextId)
    requires req.PostAddComputer? || req.PostAddPrinter?
    requires Step(rows, nextId, role, sessionStation, req).outcome == Done
    ensures var e := Step(rows, nextId, role, sessionStation, req);
      && nextId !in rows
      && e.rows.Keys == rows.Keys + {nextId}
      && e.rows[nextId].stationId == Some(req.stationId)
      && e.rows[nextId].kind == (if req.PostAddComputer? then "computer" else "printer")
      && (forall k :: k in rows ==> e.rows[k] == rows[k])
  {
  }

  /** A successful edit rewrites only the addressed row, and only its descriptive columns. */
  lemma EditTouchesOneRow(rows: map<int, Equipment>, nextId: int, role: Role, sessionStation: Option<int>, req: Request)
    requires KeysBelow(rows, nextId)
    requires req.PostEditComputer? || req.PostEditPrinter?
    requires Step(rows, nextId, role, sessionStation, req).outcome == Done
    ensures var e := Step(rows, nextId, role, sessionStation, req);
      && e.rows.Keys == rows.Keys
      && (forall k :: k in rows && k != req.id ==> e.rows[k] == rows[k])
      && (req.PostEditComputer? ==> e.rows[req.id].name == req.computer.computerName)
      && (req.PostEditPrinter? ==> e.rows[req.id].serialNumber == req.printer.serialNumber)
  {
  }

  /** A successful delete removes exactly the addressed row. */
  lemma DeleteRemovesOneRow(rows: map<int, Equipment>, nextId: int, role: Role, sessionStation: Option<int>, id: int)
    requires KeysBelow(rows, nextId)
    requires Step(rows, nextId, role, sessionStation, PostDelete(id)).outcome == Done
    ensures Step(rows, nextId, role, sessionStation, PostDelete(id)).rows == rows - {id}
    ensures id in rows
  {
  }

  /** The effect of a sequence of requests made in one session, one after another. */
  function Run(rows: map<int, Equipment>, nextId: int, role: Role, sessionStation: Option<int>, reqs: seq<Request>): (e: Effect)
    requires KeysBelow(rows, nextId)
    ensures KeysBelow(e.rows, e.nextId)
    decreases |reqs|
  {
    if reqs == [] then Effect(Done, rows, nextId)
    else
      var first := Step(rows, nextId, role, sessionStation, reqs[0]);
      Run(first.rows, first.nextId, role, sessionStation, reqs[1..])
  }

  lemma ConfinedTransitive(a: map<int, Equipment>, b: map<int, Equipment>, c: map<int, Equipment>, station: Option<int>)
    requires Confined(a, b, station) && Confined(b, c, station)
    ensures Confined(a, c, station)
  {
  }

  /**
   * Whatever a user submits during a session, every row of `equipment`
   * that is removed, changed or added belongs to the station of that
   * session; the rows of every other station are left exactly as they were.
   */
  lemma {:induction false} UserSessionConfined(rows: map<int, Equipment>, nextId: int, sessionStation: Option<int>, reqs: seq<Request>)
    requires KeysBelow(rows, nextId)
    ensures Confined(rows, Run(rows, nextId, User, sessionStation, reqs).rows, sessionStation)
    decreases |reqs|
  {
    if reqs != [] {
      var first := Step(rows, nextId, User, sessionStation, reqs[0]);
      UserSessionConfined(first.rows, first.nextId, sessionStation, reqs[1..]);
      ConfinedTransitive(rows, first.rows, Run(first.rows, first.nextId, User, sessionStation, reqs[1..]).rows, sessionStation);
    }
  }

  /** A session whose role is neither `user` nor `admin` changes nothing, whatever it submits. */
  lemma {:induction false} OtherRoleChangesNothing(rows: map<int, Equipment>, nextId: int, sessionStation: Option<int>, reqs: seq<Request>)
    requires KeysBelow(rows, nextId)
    ensures Run(rows, nextId, Other, sessionStation, reqs).rows == rows
    decreases |reqs|
  {
    if reqs != [] {
      OtherRoleChangesNothing(rows, nextId, sessionStation, reqs[1..]);
    }
  }

  /** Over any session, no row that survives is moved to another station or given another type. */
  lemma {:induction false} SessionRetainsStations(rows: map<int, Equipment>, nextId: int, role: Role, sessionStation: Option<int>, reqs: seq<Request>)
    requires KeysBelow(rows, nextId)
    ensures Retained(rows, Run(rows, nextId, role, sessionStation, reqs).rows)
    decreases |reqs|
  {
    if reqs != [] {
      var first := Step(rows, nextId, role, sessionStation, reqs[0]);
      SessionRetainsStations(first.rows, first.nextId, role, sessionStation, reqs[1..]);
      var last := Run(first.rows, first.nextId, role, sessionStation, reqs[1..]).rows;
      forall k | k in rows && k in last
        ensures last[k].stationId == rows[k].stationId && last[k].kind == rows[k].kind
      {
        // a key that left the table never comes back: new keys are at least nextId
        assert k in first.rows by {
          if k !in first.rows {
            RemovedKeysStayRemoved(first.rows, first.nextId, role, sessionStation, reqs[1..], k);
          }
        }
      }
    }
  }

  /** A key below the SERIAL counter that is not in the table is never added again. */
  lemma {:induction false} RemovedKeysStayRemoved(rows: map<int, Equipment>, nextId: int, role: Role, sessionStation: Option<int>, reqs: seq<Request>, k: int)
    requires KeysBelow(rows, nextId)
    requires k !in rows && k < nextId
    ensures k !in Run(rows, nextId, role, sessionStation, reqs).rows
    decreases |reqs|
  {
    if reqs != [] {
      var first := Step(rows, nextId, role, sessionStation, reqs[0]);
      assert k !in first.rows;
      RemovedKeysStayRemoved(first.rows, first.nextId, role, sessionStation, reqs[1..], k);
    }
  }

  // ---------------- the handlers ----------------

  /** `add_computer` (POST). */
  method AddComputer(db: Database, role: Role, sessionStation: Option<int>, stationId: int, form: ComputerForm)
    returns (outcome: Outcome)
    requires db.Valid()
    modifies db`equipment, db`nextEquipmentId
    ensures db.Valid()
    ensures var e := Step(old(db.equipment), old(db.nextEquipmentId), role, sessionStation, PostAddComputer(stationId, form));
      outcome == e.outcome && db.Snapshot() == old(db.Snapshot()).(equipment := e.rows, nextEquipmentId := e.nextId)
  {
    if !Authorized(role) {
      return AccessDenied;
    }
    if role.User? && Some(stationId) != sessionStation {
      return ForeignStation;
    }
    db.equipment := db.equipment[db.nextEquipmentId := NewComputer(stationId, form)];
    db.nextEquipmentId := db.nextEquipmentId + 1;
    outcome := Done;
  }

  /** `edit_computer` (POST). */
  method EditComputer(db: Database, role: Role, sessionStation: Option<int>, equipmentId: int, form: ComputerForm)
    returns (outcome: Outcome)
    requires db.Valid()
    modifies db`equipment, db`nextEquipmentId
    ensures db.Valid()
    ensures var e := Step(old(db.equipment), old(db.nextEquipmentId), role, sessionStation, PostEditComputer(equipmentId, form));
      outcome == e.outcome && db.Snapshot() == old(db.Snapshot()).(equipment := e.rows, nextEquipmentId := e.nextId)
  {
    if !Authorized(role) {
      return AccessDenied;
    }
    if equipmentId !in db.equipment || db.equipment[equipmentId].kind != "computer" {
      return NotFound;
    }
    var computer := db.equipment[equipmentId];
    if role.User? && computer.stationId != sessionStation {
      return ForeignStation;
    }
    db.equipment := db.equipment[equipmentId := EditedComputer(computer, form)];
    outcome := Done;
  }

  /** `add_printer` (POST). */
  method AddPrinter(db: Database, role: Role, sessionStation: Option<int>, stationId: int, form: PrinterForm)
    returns (outcome: Outcome)
    requires db.Valid()
    modifies db`equipment, db`nextEquipmentId
    ensures db.Valid()
    ensures var e := Step(old(db.equipment), old(db.nextEquipmentId), role, sessionStation, PostAddPrinter(stationId, form));
      outcome == e.outcome && db.Snapshot() == old(db.Snapshot()).(equipment := e.rows, nextEquipmentId := e.nextId)
  {
    if !Authorized(role) {
      return AccessDenied;
    }
    if role.User? && Some(stationId) != sessionStation {
      return ForeignStation;
    }
    db.equipment := db.equipment[db.nextEquipmentId := NewPrinter(stationId, form)];
    db.nextEquipmentId := db.nextEquipmentId + 1;
    outcome := Done;
  }

  /** `edit_printer` (POST). */
  method EditPrinter(db: Database, role: Role, sessionStation: Option<int>, equipmentId: int, form: PrinterForm)
    returns (outcome: Outcome)
    requires db.Valid()
    modifies db`equipment, db`nextEquipmentId
    ensures db.Valid()
    ensures var e := Step(old(db.equipment), old(db.nextEquipmentId), role, sessionStation, PostEditPrinter(equipmentId, form));
      outcome == e.outcome && db.Snapshot() == old(db.Snapshot()).(equipment := e.rows, nextEquipmentId := e.nextId)
  {
    if !Authorized(role) {
      return AccessDenied;
    }
    if equipmentId !in db.equipment || db.equipment[equipmentId].kind != "printer" {
      return NotFound;
    }
    var printer := db.equipment[equipmentId];
    if role.User? && printer.stationId != sessionStation {
      return ForeignStation;
    }
    db.equipment := db.equipment[equipmentId := EditedPrinter(printer, form)];
    outcome := Done;
  }

  /** `delete_equipment` of the user blueprint. */
  method DeleteEquipment(db: Database, role: Role, sessionStation: Option<int>, equipmentId: int)
    returns (outcome: Outcome)
    requires db.Valid()
    modifies db`equipment, db`nextEquipmentId
    ensures db.Valid()
    ensures var e := Step(old(db.equipment), old(db.nextEquipmentId), role, sessionStation, PostDelete(equipmentId));
      outcome == e.outcome && db.Snapshot() == old(db.Snapshot()).(equipment := e.rows, nextEquipmentId := e.nextId)
  {
    if !Authorized(role) {
      return AccessDenied;
    }
    if equipmentId !in db.equipment {
      return NotFound;
    }
    if role.User? && db.equipment[equipmentId].stationId != sessionStation {
      return ForeignStation;
    }
    db.equipment := db.equipment - {equipmentId};
    outcome := Done;
  }

  // ---------------- the dashboard ----------------

  /** What `user_dashboard` shows. */
  datatype Dashboard =
    | Denied                       // redirected to the login page
    | AllStations(stations: map<int, Station>)
    | NoStation                    // a user without a station is sent back to the login page
    | UnknownStation               // the session station has no row
    | StationPage(stationId: int, station: Station, computers: map<int, Equipment>, printers: map<int, Equipment>)

  /** The rows of type `kind` at `stationId` (`WHERE station_id=%s AND type=...`). */
  function RowsAt(rows: map<int, Equipment>, stationId: int, kind: string): (r: map<int, Equipment>)
    ensures forall k :: k in r <==> k in rows && rows[k].stationId == Some(stationId) && rows[k].kind == kind
    ensures forall k :: k in r ==> r[k] == rows[k]
  {
    map k | k in rows && rows[k].stationId == Some(stationId) && rows[k].kind == kind :: rows[k]
  }

  /**
   * `user_dashboard`: an admin sees every station; a user sees their own
   * station and its computers and printers, and nothing when the session
   * holds no station (Python treats a station id of 0 as none).
   */
  function UserDashboard(stations: map<int, Station>, equipment: map<int, Equipment>, role: Role, sessionStation: Option<int>)
    : (d: Dashboard)
    ensures !Authorized(role) ==> d == Denied
    ensures role.Admin? ==> d == AllStations(stations)
    ensures role.User? && (sessionStation.None? || sessionStation == Some(0)) ==> d == NoStation
    ensures d.StationPage? <==>
      role.User? && sessionStation.Some? && sessionStation.value != 0 && sessionStation.value in stations
    ensures d.StationPage? ==>
      && Some(d.stationId) == sessionStation
      && d.station == stations[d.stationId]
      && (forall k :: k in d.computers <==>
            k in equipment && equipment[k].stationId == sessionStation && equipment[k].kind == "computer")
      && (forall k :: k in d.printers <==>
            k in equipment && equipment[k].stationId == sessionStation && equipment[k].kind == "printer")
      && (forall k :: k in d.computers ==> d.computers[k] == equipment[k])
      && (forall k :: k in d.printers ==> d.printers[k] == equipment[k])
  {
    if !Authorized(role) then Denied
    else if role.Admin? then AllStations(stations)
    else
      var station := sessionStation;
      if station.None? || station.value == 0 then NoStation
      else if station.value !in stations then UnknownStation
      else StationPage(station.value, stations[station.value],
                       RowsAt(equipment, station.value, "computer"),
                       RowsAt(equipment, station.value, "printer"))
  }
}
