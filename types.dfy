/** The records the dashboard passes around, and the fixed tables the
    generator draws from. Timestamps are whole numbers: `HistoricalData`
    carries its day offset from 2024-01-01, `lastUpdated` milliseconds since
    the Unix epoch. */
module Types {
  import opened Common

  datatype Status = Online | Offline | Maintenance

  datatype Severity = Low | Medium | High

  /** The eight defect types of the generator's table. */
  datatype DefectType =
    | Scratches | Dents | Misalignment | Contamination
    | Cracks | Discoloration | SurfaceRoughness | DimensionalVariance
  {
    /** The name the table spells the type with. */
    function Name(): string
    {
      match this
      case Scratches => "scratches"
      case Dents => "dents"
      case Misalignment => "misalignment"
      case Contamination => "contamination"
      case Cracks => "cracks"
      case Discoloration => "discoloration"
      case SurfaceRoughness => "surface_roughness"
      case DimensionalVariance => "dimensional_variance"
    }
  }

  /** One `{type, count, severity}` entry of a system's defect list. */
  datatype DefectObservation = DefectObservation(kind: DefectType, count: int, severity: Severity)

  function CountOf(d: DefectObservation): int { d.count }

  datatype Units = Units(daily: int, weekly: int, monthly: int)

  datatype InspectionSystem = InspectionSystem(
    id: string,
    name: string,
    location: string,
    status: Status,
    uptime: int,
    unitsInspected: Units,
    defects: seq<DefectObservation>,
    lastUpdated: int)

  datatype HistoricalData = HistoricalData(
    systemId: string,
    timestamp: int,
    unitsInspected: int,
    defectsDetected: int,
    defectTypes: map<DefectType, int>)

  datatype SeverityTotals = SeverityTotals(low: int, medium: int, high: int)

  /** `averageUptime` is `None` where JavaScript computes `0 / 0`. */
  datatype FleetMetrics = FleetMetrics(
    totalSystems: int,
    onlineSystems: int,
    offlineSystems: int,
    maintenanceSystems: int,
    totalUnitsInspected: Units,
    totalDefects: SeverityTotals,
    averageUptime: Option<real>)

  /** The module-level `defectTypes` array as declared. */
  const DefectTypes: seq<DefectType> := [
    Scratches, Dents, Misalignment, Contamination,
    Cracks, Discoloration, SurfaceRoughness, DimensionalVariance]

  /** `defectSeverityMap[type]`: the severity the table gives each type. */
  function SeverityOf(kind: DefectType): Severity
  {
    match kind
    case Scratches | Discoloration | SurfaceRoughness => Low
    case Dents | Misalignment | DimensionalVariance => Medium
    case Cracks | Contamination => High
  }

  const Locations: seq<string> := [
    "Production Line A", "Production Line B", "Production Line C",
    "Quality Control Station 1", "Quality Control Station 2", "Final Inspection Bay",
    "Packaging Line Alpha", "Packaging Line Beta", "Assembly Station 1",
    "Assembly Station 2", "Testing Lab", "Shipping Dock"]

  const Statuses: seq<Status> := [Online, Offline, Maintenance]

  /** The defect-type table lists every type once. */
  lemma DefectTableWellFormed()
    ensures |DefectTypes| == 8 && Distinct(DefectTypes)
    ensures forall k: DefectType :: k in DefectTypes
  {
    forall k: DefectType
      ensures k in DefectTypes
    {
      match k
      case Scratches => assert DefectTypes[0] == k;
      case Dents => assert DefectTypes[1] == k;
      case Misalignment => assert DefectTypes[2] == k;
      case Contamination => assert DefectTypes[3] == k;
      case Cracks => assert DefectTypes[4] == k;
      case Discoloration => assert DefectTypes[5] == k;
      case SurfaceRoughness => assert DefectTypes[6] == k;
      case DimensionalVariance => assert DefectTypes[7] == k;
    }
  }
}
