/** The optional value used where the plugin's Go code gets a nil or an error back. */
module Options {
  datatype Option<+T> = None | Some(value: T)
}
