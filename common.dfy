/** A Java reference that may be null, for the string and id fields of the
    entities and the lookup results of the controller. */
module Common {

  datatype Option<T> = None | Some(value: T)

}
