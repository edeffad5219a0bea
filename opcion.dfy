/** The optional value used for absent inputs (`null`) and failed parses. */
module Opcion {
  datatype Option<T> = None | Some(value: T)
}
