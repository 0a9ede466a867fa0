/** The optional value shared by the orientation and export modules: the
    orientation Kotlin reads as `Int?`, and the ghost history of a bitmap. */
module Options {

  datatype Option<T> = None | Some(value: T)
}
