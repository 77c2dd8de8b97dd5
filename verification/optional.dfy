/** The Some/None datatype used where the source looks an entry up in a hash
    table that may not hold it. */
module Optional {

  datatype Option<+T> = None | Some(value: T)

}
