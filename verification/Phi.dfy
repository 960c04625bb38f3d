/** The golden-ratio constants of internal/phi/constants.go as exact decimals.
    They satisfy the identities the tuning relies on: 1/Phi + 1/Phi^2 == 1 and
    1/Phi - 1/Phi^2 == 1/Phi^3. */
module Phi {
  const AGNOSIS: real := 0.2360679774997898
  const PSYCHE: real := 0.3819660112501051
  const MATTER: real := 0.6180339887498949
  const BEING: real := 1.6180339887498949
  const TOTALITY: real := 4.2360679774997898
  const COMPLETION: real := 5.0
}
