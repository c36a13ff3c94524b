/** The contract between the decision source and the executor: one build request
    and the executor's own envelope for it. The source never consults this file. */
module Admission {
  const LEASE_MS := 130           // receive lease, and TIM5's longest cutoff
  const AGE_MS := 20              // oldest frame that may authorise output
  const FULL_REST_MS := 108000
  const APPROACH_TOTAL_MS := 8000
  const APPROACH_COMMAND_MS := 40_000_000
  const NO_RESPONSE_MS := 45000

  const PHASE_APPROACH := 1
  const PHASE_BUILD := 2
  const PHASE_TAPER := 3

  const MODE_COARSE := 1
  const MODE_MICRO := 2
  const MODE_FINE := 3

  const APPROACH_COMMAND := 5000
  const COMMAND_CEILING := 12000

  const PERIOD_COUNTS := 4799     // of TIM2 and TIM3
  const SUPPLY_MV := 24000

  datatype Request = Request(
    phase: nat, mode: nat, command: nat, hardMs: nat, normalMs: nat,
    settleMs: nat, target: nat, precision: bool, preload: nat)

  predicate ApproachEnvelope(r: Request) {
    r.mode == MODE_COARSE && r.command == APPROACH_COMMAND && r.normalMs == 0 && !r.precision
  }

  function CommandCap(r: Request): nat {
    if r.precision || r.mode == MODE_FINE then
      if r.target <= 200 then 5500 else if r.target < 800 then 7000 else COMMAND_CEILING
    else if r.phase == PHASE_TAPER then
      if r.target <= 200 then 5000 else 7000
    else 10000
  }

  function WidthCap(r: Request): nat {
    if r.precision || r.mode == MODE_FINE then
      if r.target <= 200 then 4 else if r.target < 800 then 8 else 14
    else if r.phase == PHASE_TAPER then
      if r.target <= 200 then 4 else 8
    else 12
  }

  predicate PulseEnvelope(r: Request) {
    && (r.phase == PHASE_BUILD || r.phase == PHASE_TAPER)
    && (r.mode == MODE_MICRO || r.mode == MODE_FINE)
    && 0 < r.command <= CommandCap(r)
    && 2 <= r.normalMs <= WidthCap(r)
    && r.hardMs == r.normalMs + 1
    && (r.settleMs == 30 || r.settleMs == 400)
  }

  /** What the executor accepts of a request on its own, whatever its owner's history. */
  predicate Envelope(r: Request) {
    && 1 <= r.target <= 3000
    && r.preload == 0
    && if r.phase == PHASE_APPROACH then ApproachEnvelope(r) else PulseEnvelope(r)
  }

  /** PWM compare counts planned for a command in millivolts. */
  function Duty(command: nat): nat {
    (command * PERIOD_COUNTS + SUPPLY_MV - 1) / SUPPLY_MV
  }

  /** The least count whose share of the 4799 counts of a period is at least the command's share of the 24000 mV
      supply. Up to the supply it never exceeds the period, and more volts never get less of it. */
  lemma DutyIsLeast(command: nat, more: nat)
    requires 0 < command <= more <= 24000
    ensures forall d: nat :: d >= Duty(command) <==> 24000 * d >= 4799 * command
    ensures 4799 * command <= 24000 * Duty(command) < 4799 * command + 24000
    ensures 1 <= Duty(command) <= Duty(more) <= 4799
  {
  }
}
