/** The physical constants and the preset table the simulation is built on. */
module Constants {
  import opened Types

  /** Gravitational acceleration, m/s^2. */
  const Gravity: real := 9.8

  /** Density of air, kg/m^3. */
  const AirDensity: real := 1.225

  /** The selectable objects, in the order they are offered. */
  const ObjectPresets: seq<ObjectPreset> := [
    ObjectPreset("Basketball", 0.62, 0.24, 0.47),
    ObjectPreset("Tennis ball", 0.057, 0.067, 0.55),
    ObjectPreset("Bowling ball", 7.2, 0.21, 0.4)
  ]

  /** Default start height in metres. */
  const InitialHeight: real := 169.0

  /** The object selected when the program starts. */
  const InitialObject: ObjectPreset := ObjectPresets[0]

  /** A preset the integrator can use: positive mass and diameter, and a
      drag coefficient that never turns drag into thrust. */
  predicate ValidPreset(p: ObjectPreset) {
    p.mass > 0.0 && p.diameter > 0.0 && p.cd >= 0.0
  }

  /** Every preset is physically meaningful, so dividing by its mass is defined. */
  lemma PresetsAreValid()
    ensures forall i :: 0 <= i < |ObjectPresets| ==> ValidPreset(ObjectPresets[i])
  {
  }

  /** No two presets share a name, so looking a preset up by name is unambiguous. */
  lemma PresetNamesDistinct()
    ensures forall i, j :: 0 <= i < j < |ObjectPresets| ==> ObjectPresets[i].name != ObjectPresets[j].name
  {
  }

  /** The initial object is the first preset, the basketball. */
  lemma InitialObjectIsBasketball()
    ensures InitialObject == ObjectPresets[0]
    ensures InitialObject == ObjectPreset("Basketball", 0.62, 0.24, 0.47)
    ensures ValidPreset(InitialObject)
  {
  }

  /** Gravity and air density are positive. */
  lemma ConstantsArePositive()
    ensures Gravity > 0.0 && AirDensity > 0.0
  {
  }
}
