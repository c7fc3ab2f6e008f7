/** An optional value: `None` stands for something the input does not have
    (a branch missing from an event, an unreadable file). */
module Optional {

  datatype Option<+T> = None | Some(value: T)

}
