/**
 * The script's hard-coded tables and parameters: the default print colour per
 * licence class, the class-name alias, the minimum engraving length per class,
 * the engraving geometry and the spreadsheet's column positions.
 */
module Parameters {

  /** Default print colour per raw licence class, used when a row gives no colour. */
  const STANDARD_COLORS: map<string, string> := map[
    "Novice" := "purple",
    "Advanced" := "orange",
    "Technician" := "red",
    "General" := "blue",
    "Amateur Extra" := "green"
  ]

  /** Colour used when the raw class has no standard colour. */
  const FALLBACK_COLOR: string := "black"

  /** Class-name aliases, applied after the colour lookup. */
  const LEVEL_OVERRIDES: map<string, string> := map["Amateur Extra" := "Extra"]

  /** Minimum engraving length per capitalized class name. */
  const KNOWN_LENGTHS: map<string, nat> := map[
    "Novice" := 30,
    "Technician" := 48,
    "General" := 35,
    "Advanced" := 40,
    "Extra" := 27
  ]

  const START_BUFFER: nat := 3
  const CHAR_LENGTH: nat := 8
  /** Base and letter heights, counted in print layers (each 0.2 units high). */
  const BASE_LAYERS: nat := 5
  const LETTER_LAYERS: nat := 3

  /** Column positions in a roster row. */
  const COL_NAME: nat := 0
  const COL_CALLSIGN: nat := 2
  const COL_LICENSE_CLASS: nat := 3
  const COL_COLOR: nat := 4
  const COL_NOTES: nat := 5
  const COL_COMPLETED: nat := 6

  /** The marker (compared after upper-casing) of a row that is already done. */
  const COMPLETED_MARK: string := "TRUE"
}
