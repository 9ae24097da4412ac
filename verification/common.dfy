/** Shared vocabulary of the console model: optional values (the source's
    `undefined` fields) and the badge and progress-bar colour schemes. */
module Common {

  /** An optional value; `None` plays the part of an absent (`undefined`) field. */
  datatype Option<+T> = None | Some(value: T)

  /** The colour schemes the views assign to badges and progress bars. */
  datatype Color = Green | Blue | Orange | Yellow | Red | Purple
}
