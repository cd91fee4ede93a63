/**
 * The discrete safety signals. Both the current and the older prediction
 * files declare the same three-valued SafeState; it is declared once here.
 */
module Signals {

  /** Result of one binary safety check; Undetected means a region or keypoint was missing. */
  datatype SafeState = No | Yes | Undetected

  /** Coarse posture labels produced by the posture classifier. */
  datatype PoseState = Stand | ArmStretch | ArmBend | Lie | Unknown
}
