/** The optional value used where the C# code stores a nullable reference. */
module Options {
  datatype Option<+T> = None | Some(value: T)
}
