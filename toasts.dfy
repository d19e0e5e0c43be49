/** The notices the components raise and the outcome of the backend calls they await. */
module Toasts {
  /** A toast: title, description (empty when the toast has none) and whether it is the
      destructive (error) variant. */
  datatype Toast = Toast(title: string, description: string, destructive: bool)

  /** What an awaited backend call does: resolves, or throws an error with a message (empty
      for an error without one). */
  datatype AddResult = Added | Failed(message: string)
}
