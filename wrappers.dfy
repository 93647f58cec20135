/** The optional value used for the nullable state of the source (`string | null`,
    `VisualizationData | null`). */
module Wrappers {

  datatype Option<+T> = None | Some(value: T)
}
