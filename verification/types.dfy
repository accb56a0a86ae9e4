/** The record shapes the simulation passes around: a chart point, a named
    object preset, and a possibly absent value. */
module Types {

  /** A value that may be absent: no clock baseline before the first frame
      after a start, no preset carrying a requested name. */
  datatype Option<T> = None | Some(value: T)

  /** One point of the velocity-over-time chart: simulated seconds and m/s. */
  datatype Sample = Sample(time: real, velocity: real)

  /** A named bundle of object parameters offered as a selectable default:
      mass in kg, diameter in m and a dimensionless drag coefficient. */
  datatype ObjectPreset = ObjectPreset(name: string, mass: real, diameter: real, cd: real)
}
