/** The optional value used wherever the exporter returns `None` for "absent". */
module Optional {

  datatype Option<+T> = None | Some(value: T)
}
