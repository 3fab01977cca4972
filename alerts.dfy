/**
 * The threshold evaluator (`AlertManager` in alerts.py): two mutable percentage thresholds,
 * validated setters, and the evaluation of one reading into zero, one or two alerts.
 */
module Alerts {

  import opened Wrappers

  const CPU: string := "CPU"
  const MEMORY: string := "MEMORY"
  const HIGH: string := "HIGH"

  const INITIAL_CPU_THRESHOLD: real := 25.0
  const INITIAL_MEMORY_THRESHOLD: real := 30.0

  const CPU_RANGE_ERROR: string := "CPU threshold must be between 0 and 100"
  const MEMORY_RANGE_ERROR: string := "Memory threshold must be between 0 and 100"

  /**
   * The human-readable alert text. The source formats the reading with two decimals
   * ("High CPU usage: 40.00%"); the model keeps the template and the reading, not the digits.
   */
  datatype Message = HighCpuUsage(percent: real) | HighMemoryUsage(percent: real)

  /** One alert record: the six fields the evaluator fills in and the alert log stores. */
  datatype Alert = Alert(kind: string, message: Message, value: real, threshold: real,
                         timestamp: int, severity: string)

  /** The pair `get_thresholds` reports. */
  datatype Thresholds = Thresholds(cpu: real, memory: real)

  /** The range every threshold setter accepts, bounds included. */
  predicate InRange(t: real)
  {
    0.0 <= t <= 100.0
  }

  class AlertManager {
    var cpuThreshold: real
    var memoryThreshold: real
    /** Present in the source and never read or written after construction. */
    var activeAlerts: map<string, Alert>

    /** Thresholds stay within [0, 100]: the initial values are, and the setters reject anything else. */
    ghost predicate Valid()
      reads this
    {
      InRange(cpuThreshold) && InRange(memoryThreshold)
    }

    constructor ()
      ensures Valid()
      ensures cpuThreshold == INITIAL_CPU_THRESHOLD && memoryThreshold == INITIAL_MEMORY_THRESHOLD
      ensures activeAlerts == map[]
    {
      cpuThreshold := INITIAL_CPU_THRESHOLD;
      memoryThreshold := INITIAL_MEMORY_THRESHOLD;
      activeAlerts := map[];
    }

    /**
     * Evaluates one reading. A CPU alert exists exactly when the CPU reading is strictly above the
     * CPU threshold, a MEMORY alert exactly when the memory reading is strictly above the memory
     * threshold, independently; the CPU alert comes first. Each alert carries the reading, the
     * threshold in force, the given timestamp and severity HIGH. Nothing is modified.
     */
    function CheckThresholds(cpuUsage: real, memoryUsage: real, timestamp: int): (alerts: seq<Alert>)
      reads this
      ensures |alerts| <= 2
      ensures (exists i :: 0 <= i < |alerts| && alerts[i].kind == CPU) <==> cpuUsage > cpuThreshold
      ensures (exists i :: 0 <= i < |alerts| && alerts[i].kind == MEMORY) <==> memoryUsage > memoryThreshold
      ensures forall i :: 0 <= i < |alerts| ==>
        alerts[i].severity == HIGH && alerts[i].timestamp == timestamp &&
        (alerts[i].kind == CPU || alerts[i].kind == MEMORY)
      ensures forall i :: 0 <= i < |alerts| && alerts[i].kind == CPU ==>
        alerts[i].value == cpuUsage && alerts[i].threshold == cpuThreshold &&
        alerts[i].message == HighCpuUsage(cpuUsage)
      ensures forall i :: 0 <= i < |alerts| && alerts[i].kind == MEMORY ==>
        alerts[i].value == memoryUsage && alerts[i].threshold == memoryThreshold &&
        alerts[i].message == HighMemoryUsage(memoryUsage)
      ensures forall i, j :: 0 <= i < j < |alerts| ==> alerts[i].kind == CPU && alerts[j].kind == MEMORY
    {
      var cpuAlerts :=
        if cpuUsage > cpuThreshold
        then [Alert(CPU, HighCpuUsage(cpuUsage), cpuUsage, cpuThreshold, timestamp, HIGH)]
        else [];
      var memoryAlerts :=
        if memoryUsage > memoryThreshold
        then [Alert(MEMORY, HighMemoryUsage(memoryUsage), memoryUsage, memoryThreshold, timestamp, HIGH)]
        else [];
      assert CPU[0] != MEMORY[0];
      var alerts := cpuAlerts + memoryAlerts;
      assert cpuUsage > cpuThreshold ==> alerts[0].kind == CPU;
      assert memoryUsage > memoryThreshold ==> alerts[|alerts| - 1].kind == MEMORY;
      alerts
    }

    /** Accepts a CPU threshold in [0, 100]; anything else raises and changes nothing. */
    method SetCpuThreshold(threshold: real) returns (r: Outcome<string>)
      requires Valid()
      modifies this
      ensures Valid()
      ensures r.Pass? <==> InRange(threshold)
      ensures r.Fail? ==> r.error == CPU_RANGE_ERROR
      ensures cpuThreshold == if InRange(threshold) then threshold else old(cpuThreshold)
      ensures memoryThreshold == old(memoryThreshold) && activeAlerts == old(activeAlerts)
    {
      if threshold >= 0.0 && threshold <= 100.0 {
        cpuThreshold := threshold;
        r := Pass;
      } else {
        r := Fail(CPU_RANGE_ERROR);
      }
    }

    /** Accepts a memory threshold in [0, 100]; anything else raises and changes nothing. */
    method SetMemoryThreshold(threshold: real) returns (r: Outcome<string>)
      requires Valid()
      modifies this
      ensures Valid()
      ensures r.Pass? <==> InRange(threshold)
      ensures r.Fail? ==> r.error == MEMORY_RANGE_ERROR
      ensures memoryThreshold == if InRange(threshold) then threshold else old(memoryThreshold)
      ensures cpuThreshold == old(cpuThreshold) && activeAlerts == old(activeAlerts)
    {
      if threshold >= 0.0 && threshold <= 100.0 {
        memoryThreshold := threshold;
        r := Pass;
      } else {
        r := Fail(MEMORY_RANGE_ERROR);
      }
    }

    /** The current (cpu, memory) pair; under the object invariant both lie in [0, 100]. */
    function GetThresholds(): (t: Thresholds)
      reads this
      ensures t.cpu == cpuThreshold && t.memory == memoryThreshold
      ensures Valid() ==> InRange(t.cpu) && InRange(t.memory)
    {
      Thresholds(cpuThreshold, memoryThreshold)
    }
  }

  /** The boundary case: a reading exactly at the threshold raises no alert, one just above does. */
  lemma BoundaryReading(m: AlertManager, timestamp: int)
    requires m.cpuThreshold == 25.0 && m.memoryThreshold == 30.0
    ensures m.CheckThresholds(25.0, 30.0, timestamp) == []
    ensures m.CheckThresholds(25.01, 10.0, timestamp) ==
      [Alert(CPU, HighCpuUsage(25.01), 25.01, 25.0, timestamp, HIGH)]
  {
    var b := m.CheckThresholds(25.01, 10.0, timestamp);
    assert exists i :: 0 <= i < |b| && b[i].kind == CPU;
  }
}
