/** The records GearGuard keeps and exchanges: equipment, maintenance requests,
    teams and users as stored by the server, the request bodies the handlers
    accept, and the team-workload entries the statistics endpoint returns.
    Dates and timestamps are opaque comparable values. */
module Records {

  datatype Option<+T> = None | Some(value: T)

  /** Why a store operation failed: the row to update does not exist, or a
      reference column names a row that does not exist. */
  datatype Error = RecordNotFound | ForeignKeyViolation(column: string)

  datatype Result<+T> = Ok(value: T) | Err(error: Error)

  /** A date or timestamp, compared but never decoded. */
  type Date = int

  // Equipment operability.
  const OPERATIONAL: string := "OPERATIONAL"
  const UNUSABLE: string := "UNUSABLE"

  // Request lifecycle states.
  const NEW: string := "NEW"
  const IN_PROGRESS: string := "IN_PROGRESS"
  const REPAIRED: string := "REPAIRED"
  const SCRAP: string := "SCRAP"

  // Request kinds and priorities.
  const CORRECTIVE: string := "CORRECTIVE"
  const PREVENTIVE: string := "PREVENTIVE"
  const LOW: string := "LOW"
  const MEDIUM: string := "MEDIUM"
  const HIGH: string := "HIGH"

  datatype Team = Team(id: nat, name: string)

  datatype User = User(id: nat, name: string)

  datatype Equipment = Equipment(
    id: nat,
    name: string,
    serialNumber: string,
    location: string,
    department: Option<string>,
    purchaseDate: Date,
    warrantyEnd: Option<Date>,
    status: string,
    maintenanceTeamId: Option<nat>)

  datatype MaintenanceRequest = MaintenanceRequest(
    id: nat,
    title: string,
    description: Option<string>,
    requestType: string,
    priority: string,
    status: string,
    equipmentId: nat,
    assignedToId: Option<nat>,
    scheduledDate: Option<Date>,
    duration: Option<int>,
    createdAt: Date)

  /** A request as the request listing returns it: joined with its equipment. */
  datatype ListedRequest = ListedRequest(request: MaintenanceRequest, equipment: Option<Equipment>)

  /** A request as the assignment endpoint returns it: joined with its assignee. */
  datatype AssignedRequest = AssignedRequest(request: MaintenanceRequest, assignedTo: User)

  /** The fields the equipment-registration handler reads from its body. */
  datatype EquipmentBody = EquipmentBody(
    name: string,
    serialNumber: string,
    location: string,
    maintenanceTeamId: nat,
    department: Option<string>,
    purchaseDate: Date,
    warrantyEnd: Option<Date>)

  /** The fields the request-creation handler reads from its body. */
  datatype RequestBody = RequestBody(
    title: string,
    description: Option<string>,
    requestType: string,
    priority: string,
    equipmentId: nat,
    scheduledDate: Option<Date>)

  /** One bar of the team-workload chart. */
  datatype StatEntry = StatEntry(name: string, value: int)

  /** The sum of the entries' values (the reference the dashboard's reduce is checked against). */
  function SumOfValues(data: seq<StatEntry>): int
  {
    if data == [] then 0 else data[0].value + SumOfValues(data[1..])
  }

  lemma {:induction false} SumOfValuesAppend(data: seq<StatEntry>, e: StatEntry)
    ensures SumOfValues(data + [e]) == SumOfValues(data) + e.value
  {
    if data != [] {
      assert (data + [e])[1..] == data[1..] + [e];
      SumOfValuesAppend(data[1..], e);
    }
  }

  /** The record the equipment-registration handler inserts under `id`. */
  function NewEquipment(id: nat, body: EquipmentBody): (e: Equipment)
    ensures e.id == id && e.status == OPERATIONAL
    ensures e.maintenanceTeamId == Some(body.maintenanceTeamId)
    ensures e.warrantyEnd == body.warrantyEnd && e.department == body.department
    ensures e.name == body.name && e.serialNumber == body.serialNumber && e.location == body.location
    ensures e.purchaseDate == body.purchaseDate
  {
    Equipment(id, body.name, body.serialNumber, body.location, body.department,
              body.purchaseDate, body.warrantyEnd, OPERATIONAL, Some(body.maintenanceTeamId))
  }

  /** The record the request-creation handler inserts under `id` at time `now`. */
  function NewRequest(id: nat, body: RequestBody, now: Date): (r: MaintenanceRequest)
    ensures r.id == id && r.status == NEW && r.createdAt == now
    ensures r.assignedToId == None && r.duration == None
    ensures r.scheduledDate == body.scheduledDate && r.equipmentId == body.equipmentId
    ensures r.title == body.title && r.description == body.description
    ensures r.requestType == body.requestType && r.priority == body.priority
  {
    MaintenanceRequest(id, body.title, body.description, body.requestType, body.priority,
                       NEW, body.equipmentId, None, body.scheduledDate, None, now)
  }
}
