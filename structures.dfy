/** The records of api/structures.go that the diagnostic rule reads. */
module Structures {

  /** One unit's entry in a local health report (`UnitHealthResponseFieldsStruct`). */
  datatype UnitHealthResponseFields = UnitHealthResponseFields(
    unitId: string,
    unitHealth: int,
    unitOutput: string,
    unitTitle: string,
    help: string,
    prettyName: string)

  /** The local health report (`UnitsHealthResponseJsonStruct`) without its host metrics. */
  datatype UnitsHealthResponse = UnitsHealthResponse(
    units: seq<UnitHealthResponseFields>,
    hostname: string,
    ipAddress: string,
    dcosVersion: string,
    role: string,
    mesosId: string,
    tdtVersion: string)

  /** Health code 0 is healthy; every other code counts as unhealthy. */
  predicate IsHealthy(u: UnitHealthResponseFields) {
    u.unitHealth == 0
  }

  predicate AllHealthy(units: seq<UnitHealthResponseFields>) {
    forall i :: 0 <= i < |units| ==> IsHealthy(units[i])
  }
}
