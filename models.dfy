/** Record shapes that the risk calculator reads and writes, with the defaults the persistence
    layer gives a freshly created record (src/models/). */
module Models {
  import opened Numerics

  /** One vehicle class of a tunnel's traffic mix; volumes are vehicles per day per direction. */
  datatype VehicleClassification = VehicleClassification(
    vehicleType: string,
    volumePlus: real,
    volumeMinus: real,
    mixingRatioPlus: real,
    mixingRatioMinus: real,
    pcu: real,
    length: real,
    occupancy: int)

  /** Tunnel geometry and the vehicle classes attached to it. */
  datatype TunnelConfiguration = TunnelConfiguration(
    id: int,
    name: string,
    mode: string,
    length: real,
    entranceLength: real,
    slope: real,
    area: real,
    height: real,
    lanes: int,
    laneWidth: real,
    shoulderWidth: real,
    forwardRatio: real,
    backwardRatio: real,
    forwardLanes: int,
    backwardLanes: int,
    vehicleClassifications: seq<VehicleClassification>)

  /** Fire and evacuation parameters of one analysis. */
  datatype HarEvacAnalysis = HarEvacAnalysis(
    id: int,
    tunnelConfigId: int,
    hazardCalculationMethod: string,
    heatReleaseRate: real,
    fireGrowthRate: string,
    smokeDensity: real,
    visibilityLimit: real,
    temperatureLimit: real,
    coLimit: real,
    reactionTime: real,
    hesitationTime: real,
    evacSpeedWalking: real,
    evacSpeedRunning: real,
    earlyStartCondition: bool)

  /** The status strings a result can hold: "Not Evaluated", "Acceptable", "ALARP",
      "Unacceptable" and "Error". */
  datatype RiskStatus = NotEvaluated | Acceptable | Alarp | Unacceptable | Error

  /** The stored verdict for one tunnel.  The fatality count is a float column that can hold
      infinity, hence an extended real. */
  datatype QraResult = QraResult(
    tunnelConfigId: int,
    accidentFrequencyPerYear: real,
    fatalitiesPerAccident: ExtReal,
    riskStatus: RiskStatus,
    improvementRequired: bool)

  /** A vehicle class with the column defaults. */
  function NewVehicleClassification(vehicleType: string): VehicleClassification {
    VehicleClassification(vehicleType, 0.0, 0.0, 0.0, 0.0, 1.0, 4.34, 3)
  }

  /** A tunnel configuration with the column defaults and no vehicle classes. */
  function NewTunnelConfiguration(id: int): TunnelConfiguration {
    TunnelConfiguration(id, "New Tunnel", "One-Way", 410.0, 29.21, -3.0, 54.11, 5.9, 2, 3.25, 1.0,
                        0.5, 0.5, 0, 0, [])
  }

  /** A fire/evacuation analysis with the column defaults. */
  function NewHarEvacAnalysis(id: int, tunnelConfigId: int): HarEvacAnalysis {
    HarEvacAnalysis(id, tunnelConfigId, "FED", 10.0, "Medium", 0.1, 10.0, 60.0, 1000.0, 60.0, 120.0,
                    1.0, 2.0, false)
  }

  /** A result with the column defaults: not evaluated, no frequency, no fatalities. */
  function NewQraResult(tunnelConfigId: int): QraResult {
    QraResult(tunnelConfigId, 0.0, Fin(0.0), NotEvaluated, false)
  }

  /** A vehicle class of the default mix: the column defaults with its own PCU, length and
      occupancy. */
  function VehicleTypeEntry(vehicleType: string, pcu: real, length: real, occupancy: int): VehicleClassification {
    NewVehicleClassification(vehicleType).(pcu := pcu, length := length, occupancy := occupancy)
  }

  /** The seven vehicle types a default project starts with (all volumes zero). */
  function VehicleTypes(): seq<VehicleClassification> {
    [ VehicleTypeEntry("Passenger Car (승용차)", 1.0, 4.34, 3),
      VehicleTypeEntry("Small Bus (버스소형)", 1.0, 4.5, 8),
      VehicleTypeEntry("Large Bus (버스대형)", 1.5, 10.77, 30),
      VehicleTypeEntry("Small Truck (트럭소형)", 1.0, 4.52, 2),
      VehicleTypeEntry("Medium Truck (트럭중형)", 1.5, 6.1, 2),
      VehicleTypeEntry("Large Truck (트럭대형)", 1.5, 8.74, 1),
      VehicleTypeEntry("Special (특수)", 2.0, 18.31, 1) ]
  }
}
