/** Record shapes and enumerations of the hospital-asset dashboard
    (types.ts), as Dafny values. */
module Types {

  datatype Option<T> = None | Some(value: T) {
    function GetOr(default: T): T {
      match this
      case Some(v) => v
      case None => default
    }
  }

  /** AssetStatus: 'Operacional' | 'Em Manutenção' | 'Crítico' | 'Desativado'. */
  datatype AssetStatus = Operational | InMaintenance | Critical | Retired

  /** OSStatus: 'Aberta' | 'Em Amdamento' | 'Concluída' | 'Cancelada'. */
  datatype OrderStatus = Open | InProgress | Completed | Cancelled

  /** ChecklistStatus: 'OK' | 'Pendente' | 'Falha'. */
  datatype CheckStatus = Ok | Pending | Fail

  /** EventType. */
  datatype EventType =
    | EvChecklist | EvOrder | EvAlert | EvAsset | EvSystem
    | EvSchedule | EvSecurity | EvStock | EvTelemetry | EvCalibration

  /** SystemEvent severity: 'info' | 'warning' | 'critical' | 'security'. */
  datatype Severity = SevInfo | SevWarning | SevCritical | SevSecurity

  /** OS priority: 'Baixa' | 'Média' | 'Alta' | 'Crítica'. */
  datatype Priority = Low | Medium | High | Top

  /** WorkScheduleTask status: 'Planejado' | 'Realizado' | 'Atrasado'. */
  datatype TaskStatus = Planned | Done | Late

  /** A calendar date; `month` counts from 0 as in JavaScript's Date. */
  datatype Date = Date(year: int, month: int, day: int)

  /** Dates the views compute with (last and next maintenance) are day numbers. */
  datatype Asset = Asset(
    id: string,
    name: string,
    category: string,
    location: string,
    manufacturer: Option<string>,
    model: string,
    serialNumber: string,
    warrantyUntil: string,
    lastMaintenance: int,
    nextMaintenance: int,
    status: AssetStatus)

  datatype ChecklistItem = ChecklistItem(
    id: string,
    labelText: string,
    category: string,
    status: CheckStatus,
    observations: string,
    lastChecked: int)

  /** A service order (OS); `createdAt` is a millisecond timestamp. */
  datatype Order = Order(
    id: string,
    assetId: Option<string>,
    assetName: string,
    location: string,
    serviceType: string,
    requesterName: string,
    technician: string,
    status: OrderStatus,
    priority: Priority,
    isWaitingPurchase: bool,
    deadline: string,
    description: string,
    createdAt: int,
    evidencePhoto: Option<string>)

  /** The `Partial<OS>` a caller hands to createOrder. */
  datatype OrderDraft = OrderDraft(
    assetId: Option<string>,
    assetName: string,
    location: string,
    serviceType: string,
    requesterName: string,
    technician: string,
    priority: Priority,
    isWaitingPurchase: bool,
    deadline: string,
    description: string,
    status: Option<OrderStatus>)

  /** The `Partial<OS>` a caller hands to updateOrder: only `Some` fields are merged. */
  datatype OrderPatch = OrderPatch(
    status: Option<OrderStatus>,
    technician: Option<string>,
    isWaitingPurchase: Option<bool>,
    evidencePhoto: Option<string>)

  datatype StockItem = StockItem(
    id: string,
    name: string,
    category: string,
    quantity: int,
    minQuantity: int,
    unit: string,
    lastRestock: string,
    location: string)

  datatype ScheduleTask = ScheduleTask(
    id: string,
    assetId: Option<string>,
    assetName: string,
    location: string,
    startDate: Date,
    intervalMonths: int,
    occurrences: seq<Date>,
    technician: string,
    status: TaskStatus,
    createdAt: int)

  /** The `Partial<WorkScheduleTask>` a caller hands to createWorkScheduleTask;
      an `intervalMonths` of 0 is JavaScript's falsy "not given". */
  datatype TaskDraft = TaskDraft(
    assetId: Option<string>,
    assetName: string,
    location: string,
    startDate: Option<Date>,
    intervalMonths: int,
    technician: string,
    status: Option<TaskStatus>)

  datatype Telemetry = Telemetry(
    id: string,
    assetId: string,
    kind: string,
    value: real,
    unit: string,
    min: real,
    max: real,
    lastUpdate: string)

  datatype SystemEvent = SystemEvent(
    id: string,
    timestamp: int,
    kind: EventType,
    user: string,
    message: string,
    severity: Severity)

  /** The `data` carried by a change notification. */
  datatype Payload =
    | NoData
    | AssetData(asset: Asset)
    | ChecklistData(item: ChecklistItem)
    | OrderData(order: Order)
    | EventData(event: SystemEvent)
    | TaskData(task: ScheduleTask)
    | StockData(stock: StockItem)
    | TelemetryData(reading: Telemetry)

  /** One entry of the offline sync queue: `{type, data, timestamp}`. */
  datatype SyncEntry = SyncEntry(kind: string, data: Payload, timestamp: int)

  /** UserRole values, as stored. */
  const ADMIN: string := "Administrador"
  const MANAGER: string := "Gestor"
  const TECHNICIAN: string := "Técnico"
}
