/** A missing spreadsheet cell is `None`; a present one is `Some(value)`. */
module Optional {

  datatype Option<+T> = None | Some(value: T)
}
