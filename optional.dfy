/** An optional value: used for Java's nullable returns (`Optional`, a `null` payload). */
module Optional {

  datatype Option<+T> = None | Some(value: T)

}
