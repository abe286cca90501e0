/** Types that several modules share. */
module Common {

  datatype Option<T> = None | Some(value: T)

  type UserId = nat
  type GroupId = nat

  /** How a request is answered: the two known words, or any other. */
  datatype Response = Accept | Reject | Other
}
