/** Small shared datatypes. */
module Common {

  datatype Option<+T> = None | Some(value: T)

  /** The ways a canvas call panics: an unknown path component kind in
      `outline`, or a font name that `fontMap` does not know in `FillString`. */
  datatype Fault = UnknownPathComponent(kind: int) | UnknownFont(name: string)
}
